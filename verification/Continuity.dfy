/** Grounding a run in recalled memories, and the provenance that lets an erasure reach it. */
module Continuity {
  import opened Base
  import opened Text
  import opened MemoryModel
  import opened LocalMemory
  import opened Checkpoints
  import opened BrainSession
  import opened Provenance
  import opened Erasure

  const MAX_GROUNDING := 5
  const BOOTSTRAP_QUERY_MAX := 1024

  /** The model-safe lanes of a session start; `stateText` is the rendered agent state, "" when empty. */
  datatype AgentBootstrap = AgentBootstrap(
    instructions: string, pinned: seq<Memory>, recall: seq<Memory>, upcoming: seq<Memory>, stateText: string)

  function IdSet(ms: seq<Memory>): set<string> {
    set m | m in ms :: m.id
  }

  /** First occurrences, by id, skipping `seen`. */
  function Dedup(ms: seq<Memory>, seen: set<string>): seq<Memory> {
    if |ms| == 0 then []
    else if ms[0].id in seen then Dedup(ms[1..], seen)
    else [ms[0]] + Dedup(ms[1..], seen + {ms[0].id})
  }

  lemma {:induction false} DedupConcat(a: seq<Memory>, b: seq<Memory>, seen: set<string>)
    ensures Dedup(a + b, seen) == Dedup(a, seen) + Dedup(b, seen + IdSet(a))
    decreases |a|
  {
    if |a| == 0 {
      assert a + b == b && seen + IdSet(a) == seen;
    } else {
      var seen' := seen + {a[0].id};
      assert (a + b)[1..] == a[1..] + b;
      assert a == [a[0]] + a[1..];
      assert seen' + IdSet(a[1..]) == seen + IdSet(a);
      DedupConcat(a[1..], b, seen');
      if a[0].id in seen { assert seen' == seen; }
    }
  }

  /** Exactly the ids not seen before, each once. */
  lemma {:induction false} DedupExact(ms: seq<Memory>, seen: set<string>)
    ensures IdSet(Dedup(ms, seen)) == IdSet(ms) - seen
    ensures forall i, j :: 0 <= i < j < |Dedup(ms, seen)| ==> Dedup(ms, seen)[i].id != Dedup(ms, seen)[j].id
    decreases |ms|
  {
    if |ms| != 0 {
      assert ms == [ms[0]] + ms[1..];
      if ms[0].id in seen {
        DedupExact(ms[1..], seen);
      } else {
        var rest := Dedup(ms[1..], seen + {ms[0].id});
        DedupExact(ms[1..], seen + {ms[0].id});
        assert Dedup(ms, seen) == [ms[0]] + rest;
        assert IdSet([ms[0]] + rest) == {ms[0].id} + IdSet(rest);
        assert IdSet(ms) == {ms[0].id} + IdSet(ms[1..]);
        forall j | 0 <= j < |rest|
          ensures rest[j].id != ms[0].id
        {
          assert rest[j].id in IdSet(rest);
        }
      }
    }
  }

  /** The shared closure of the renderer: one lane at a time, one `seen` set for all lanes. */
  method Unique(group: seq<Memory>, seen: set<string>) returns (lane: seq<Memory>, seen': set<string>)
    ensures lane == Dedup(group, seen) && seen' == seen + IdSet(group)
  {
    lane, seen' := [], seen;
    for i := 0 to |group|
      invariant lane == Dedup(group[..i], seen) && seen' == seen + IdSet(group[..i])
    {
      assert group[..i + 1] == group[..i] + [group[i]];
      DedupConcat(group[..i], [group[i]], seen);
      if group[i].id !in seen' {
        seen' := seen' + {group[i].id};
        lane := lane + [group[i]];
      }
    }
    assert group[..|group|] == group;
  }

  function Flatten(groups: seq<seq<Memory>>): seq<Memory> {
    if |groups| == 0 then [] else groups[0] + Flatten(groups[1..])
  }

  method DedupeMemories(groups: seq<seq<Memory>>) returns (out: seq<Memory>)
    ensures out == Dedup(Flatten(groups), {})
  {
    out := [];
    var seen: set<string> := {};
    hide Dedup;
    NothingToDedup(seen);
    assert groups[0..] == groups;
    for g := 0 to |groups|
      invariant out + Dedup(Flatten(groups[g..]), seen) == Dedup(Flatten(groups), {})
    {
      assert groups[g..][1..] == groups[g + 1..];
      DedupConcat(groups[g], Flatten(groups[g + 1..]), seen);
      var lane, seen' := Unique(groups[g], seen);
      out, seen := out + lane, seen';
    }
    assert groups[|groups|..] == [];
    NothingToDedup(seen);
    assert out + [] == out;
  }

  lemma NothingToDedup(seen: set<string>)
    ensures Dedup(Flatten([]), seen) == []
  {
  }

  // ---- rendering -----------------------------------------------------------------------

  function Bullet(): Memory -> string {
    (m: Memory) => "- " + m.text
  }

  function LaneBlock(title: string, ms: seq<Memory>): seq<string> {
    if |ms| == 0 then [] else [title + "\n" + Join(Map(ms, Bullet()), '\n')]
  }

  function JoinBlocks(blocks: seq<string>): string {
    if |blocks| == 0 then "" else if |blocks| == 1 then blocks[0] else blocks[0] + "\n\n" + JoinBlocks(blocks[1..])
  }

  function InstructionBlock(b: AgentBootstrap): seq<string> {
    if Strip(b.instructions) == "" then [] else ["Bootstrap instructions:\n" + Strip(b.instructions)]
  }

  function StateBlock(b: AgentBootstrap): seq<string> {
    if b.stateText == "" then []
    else ["Agent state (advisory; session checkpoint remains authoritative):\n" + b.stateText]
  }

  /** What the prompt shows, given the memories of each lane. */
  function PromptText(b: AgentBootstrap, pinned: seq<Memory>, recalled: seq<Memory>, upcoming: seq<Memory>, prompt: string): string {
    var blocks := InstructionBlock(b)
      + LaneBlock("Standing guardrails (always apply):", pinned)
      + LaneBlock("Relevant context from prior work:", recalled)
      + LaneBlock("Upcoming time memories:", upcoming)
      + StateBlock(b);
    if |blocks| == 0 then prompt else JoinBlocks(blocks + ["Task:\n" + prompt])
  }

  /** The lanes as shown: an id is shown once, in the first lane that holds it. */
  datatype Lanes = Lanes(pinned: seq<Memory>, recalled: seq<Memory>, upcoming: seq<Memory>)

  function LanesOf(b: AgentBootstrap): Lanes {
    Lanes(Dedup(b.pinned, {}), Dedup(b.recall, IdSet(b.pinned)), Dedup(b.upcoming, IdSet(b.pinned) + IdSet(b.recall)))
  }

  /** What the model reads. */
  function Rendered(b: AgentBootstrap, prompt: string): string {
    var l := LanesOf(b);
    PromptText(b, l.pinned, l.recalled, l.upcoming, prompt)
  }

  /** The memories in the rendered prompt, lane after lane, are the deduplicated lanes in order: what provenance records. */
  lemma ShownIsDeduped(b: AgentBootstrap)
    ensures var l := LanesOf(b);
            l.pinned + l.recalled + l.upcoming == Dedup(Flatten([b.pinned, b.recall, b.upcoming]), {})
  {
    FlattenThree(b.pinned, b.recall, b.upcoming);
    DedupConcat(b.pinned + b.recall, b.upcoming, {});
    DedupConcat(b.pinned, b.recall, {});
    assert {} + IdSet(b.pinned + b.recall) == IdSet(b.pinned) + IdSet(b.recall);
    assert {} + IdSet(b.pinned) == IdSet(b.pinned);
  }

  method RenderBootstrapPrompt(b: AgentBootstrap, prompt: string) returns (text: string)
    ensures text == Rendered(b, prompt)
  {
    var blocks := InstructionBlock(b);
    var p, seen1 := Unique(b.pinned, {});
    var r, seen2 := Unique(b.recall, seen1);
    var u, seen3 := Unique(b.upcoming, seen2);
    assert seen1 == IdSet(b.pinned) && seen2 == IdSet(b.pinned) + IdSet(b.recall);
    blocks := blocks + LaneBlock("Standing guardrails (always apply):", p);
    blocks := blocks + LaneBlock("Relevant context from prior work:", r);
    blocks := blocks + LaneBlock("Upcoming time memories:", u);
    blocks := blocks + StateBlock(b);
    text := if |blocks| == 0 then prompt else JoinBlocks(blocks + ["Task:\n" + prompt]);
  }

  // ---- ground and run ---------------------------------------------------------------------

  function Sources(ms: seq<Memory>): (r: seq<(string, string)>)
    ensures |r| == |ms|
  {
    seq(|ms|, i requires 0 <= i < |ms| => (ms[i].id, ms[i].trustTier))
  }

  function Saved(saved: map<string, Checkpoint>, sessionId: string): Option<Checkpoint> {
    if sessionId in saved then Some(saved[sessionId]) else None
  }

  /** The local session start: trusted pinned memories and trusted recall, nothing else. */
  function BootstrapFor(cfg: Config, s: Local, prompt: string): AgentBootstrap {
    match LocalStep(cfg, s, BootstrapCall(prompt)).1
    case Context(pinned, recalled) => AgentBootstrap("", pinned, recalled, [], "")
    case _ => AgentBootstrap("", [], [], [], "")
  }

  /** The memories the session is shown. */
  function ShownFor(cfg: Config, s: Local, prompt: string): seq<Memory> {
    var b := BootstrapFor(cfg, s, prompt);
    Dedup(Flatten([b.pinned, b.recall, b.upcoming]), {})
  }

  /** The text it reads; `ShownIsDeduped` says that it holds exactly the memories of `ShownFor`. */
  function GroundedPrompt(cfg: Config, s: Local, prompt: string): string {
    Rendered(BootstrapFor(cfg, s, prompt), prompt)
  }

  function Grounded(index: ByMemory, cfg: Config, s: Local, sessionId: string, prompt: string): ByMemory {
    Recorded(index, sessionId, Firsts(Sources(ShownFor(cfg, s, prompt))))
  }

  /** The tiers of what was shown join the session's list, which stays absent when nothing was shown. */
  function GroundedTiers(tiers: Tiers, cfg: Config, s: Local, sessionId: string, prompt: string): Tiers {
    var shown := ShownFor(cfg, s, prompt);
    if |shown| == 0 then tiers
    else tiers[sessionId := AddDistinct(Listed(tiers, sessionId), Seconds(Sources(shown)))]
  }

  type Brain = (Task, Option<Checkpoint>) -> seq<Item>

  function RunOutcome(cfg: Config, w: World, sessionId: string, prompt: string, brain: Brain): Outcome {
    Driven(sessionId, brain(Task(GroundedPrompt(cfg, w.memory, prompt), sessionId), Saved(w.saved, sessionId)))
  }

  /** The memory after a run: the session start may draw, and a completed run leaves its summary in quarantine. */
  function Remembered(cfg: Config, s: Local, sessionId: string, prompt: string, outcome: Outcome): Local {
    var s' := LocalStep(cfg, s, BootstrapCall(prompt)).0;
    match outcome
    case Completed(result) => LocalStep(cfg, s', SummaryCall(sessionId, prompt, result.text)).0
    case _ => s'
  }

  function BootstrapCall(prompt: string): Op {
    Op.Bootstrap(Take(prompt, BOOTSTRAP_QUERY_MAX), MAX_GROUNDING)
  }

  function SummaryCall(sessionId: string, prompt: string, result: string): Op {
    Op.Remember(SummaryText(sessionId, prompt, result), ["task-summary", SessionTag(sessionId)], QUARANTINE_TIER, ON_RECALL_DELIVERY)
  }

  /** Everything a grounded run changes. */
  function AfterRun(cfg: Config, w: World, sessionId: string, prompt: string, brain: Brain): World {
    var outcome := RunOutcome(cfg, w, sessionId, prompt, brain);
    World(
      Remembered(cfg, w.memory, sessionId, prompt, outcome),
      match outcome case Completed(result) => w.saved[sessionId := result.checkpoint] case _ => w.saved,
      Grounded(w.byMemory, cfg, w.memory, sessionId, prompt),
      GroundedTiers(w.tiers, cfg, w.memory, sessionId, prompt))
  }

  /**
   * Bootstrap, record provenance, run or resume, remember the outcome. What the prompt shows is recorded against the
   * session before the brain sees it, whatever the run then does.
   */
  method GroundAndRun(memory: LocalMemoryClient, provenance: ProvenanceLog, session: Session, sessionId: string,
                      prompt: string, brain: Brain)
    returns (outcome: Outcome)
    modifies memory, provenance, session.checkpoints
    ensures var before := old(World(memory.State(), session.checkpoints.saved, provenance.byMemory, provenance.tiersBySession));
            && outcome == RunOutcome(memory.cfg, before, sessionId, prompt, brain)
            && World(memory.State(), session.checkpoints.saved, provenance.byMemory, provenance.tiersBySession)
                 == AfterRun(memory.cfg, before, sessionId, prompt, brain)
    ensures outcome.Completed? ==> HasSummary(memory.memories, sessionId, SummaryText(sessionId, prompt, outcome.result.text))
  {
    hide Grounded, GroundedTiers, GroundedPrompt, Driven, HasSummary, LocalStep;
    var effective := GroundPrompt(memory, provenance, sessionId, prompt);
    var prior := session.checkpoints.Load(sessionId);
    outcome := session.Drive(Task(effective, sessionId), brain(Task(effective, sessionId), prior));
    if outcome.Completed? {
      RememberOutcome(memory, sessionId, prompt, outcome.result.text);
    }
  }

  function SummaryText(sessionId: string, prompt: string, result: string): string {
    "Task (session " + sessionId + "): " + prompt + "\nOutcome: " + result
  }

  /** The outcome is stored in quarantine, under the session's tag, where a later cascade finds it. */
  ghost predicate HasSummary(ms: seq<Memory>, sessionId: string, text: string) {
    exists m :: m in ms && SessionTag(sessionId) in m.tags && m.trustTier == QUARANTINE_TIER && m.text == text
  }

  method GroundPrompt(memory: LocalMemoryClient, provenance: ProvenanceLog, sessionId: string, prompt: string)
    returns (effective: string)
    modifies memory`drawn, provenance
    ensures memory.State() == LocalStep(memory.cfg, old(memory.State()), BootstrapCall(prompt)).0
    ensures provenance.byMemory == Grounded(old(provenance.byMemory), memory.cfg, old(memory.State()), sessionId, prompt)
    ensures provenance.tiersBySession
      == GroundedTiers(old(provenance.tiersBySession), memory.cfg, old(memory.State()), sessionId, prompt)
    ensures effective == GroundedPrompt(memory.cfg, old(memory.State()), prompt)
  {
    hide Dedup, Flatten, Recorded, Firsts, Seconds, Sources, Rendered, BootstrapFor, LocalStep, AddDistinct;
    var b := FetchBootstrap(memory, prompt);
    var used := DedupeMemories([b.pinned, b.recall, b.upcoming]);
    assert used == ShownFor(memory.cfg, old(memory.State()), prompt);
    effective := RenderBootstrapPrompt(b, prompt);
    RecordUsed(provenance, sessionId, used);
  }

  /** Nothing shown, nothing recorded: the session gets no tier list either. */
  method RecordUsed(provenance: ProvenanceLog, sessionId: string, used: seq<Memory>)
    modifies provenance
    ensures provenance.byMemory == Recorded(old(provenance.byMemory), sessionId, Firsts(Sources(used)))
    ensures provenance.tiersBySession == if |used| == 0 then old(provenance.tiersBySession)
      else old(provenance.tiersBySession)[
        sessionId := AddDistinct(Listed(old(provenance.tiersBySession), sessionId), Seconds(Sources(used)))]
  {
    hide Recorded, Firsts, Seconds, AddDistinct;
    if |used| != 0 {
      provenance.RecordGrounding(sessionId, Sources(used));
    } else {
      NothingRecorded(provenance.byMemory, sessionId);
      assert used == [];
    }
  }

  method FetchBootstrap(memory: LocalMemoryClient, prompt: string) returns (b: AgentBootstrap)
    modifies memory`drawn
    ensures memory.State() == LocalStep(memory.cfg, old(memory.State()), BootstrapCall(prompt)).0
    ensures b == BootstrapFor(memory.cfg, old(memory.State()), prompt)
  {
    BootstrapAnswers(memory.cfg, memory.State(), Take(prompt, BOOTSTRAP_QUERY_MAX), MAX_GROUNDING);
    hide LocalStep, Take;
    var context := memory.Bootstrap(Take(prompt, BOOTSTRAP_QUERY_MAX), MAX_GROUNDING);
    b := AgentBootstrap("", context.pinned, context.recalled, [], "");
  }

  lemma BootstrapAnswers(cfg: Config, s: Local, query: string, k: nat)
    requires 1 <= k <= 100
    ensures LocalStep(cfg, s, Op.Bootstrap(query, k)).1.Context?
  {
    hide LocalRecall, Filter, Take;
  }

  /** Every memory shown to a session is stored, trusted, and recorded against that session. */
  lemma ShownAreTrustedAndRecorded(index: ByMemory, cfg: Config, s: Local, sessionId: string, prompt: string, m: Memory)
    requires m in ShownFor(cfg, s, prompt)
    ensures m in s.memories && m.trustTier == TRUSTED_TIER
    ensures sessionId in SessionsOf(Grounded(index, cfg, s, sessionId, prompt), m.id)
  {
    var b := BootstrapFor(cfg, s, prompt);
    BootstrapIsTrusted(cfg, s, Take(prompt, BOOTSTRAP_QUERY_MAX), MAX_GROUNDING);
    hide LocalStep, Take, Dedup, Flatten, Recorded, SessionsOf, Firsts, Sources;
    FlattenThree(b.pinned, b.recall, b.upcoming);
    DedupFrom(b.pinned + b.recall + b.upcoming, {});
    ShownAreRecorded(index, sessionId, ShownFor(cfg, s, prompt));
  }

  lemma NothingRecorded(index: ByMemory, sessionId: string)
    ensures Recorded(index, sessionId, Firsts(Sources([]))) == index
  {
  }

  lemma ShownAreRecorded(index: ByMemory, sessionId: string, shown: seq<Memory>)
    ensures forall m :: m in shown ==> sessionId in SessionsOf(Recorded(index, sessionId, Firsts(Sources(shown))), m.id)
  {
    forall m | m in shown
      ensures sessionId in SessionsOf(Recorded(index, sessionId, Firsts(Sources(shown))), m.id)
    {
      var i :| 0 <= i < |shown| && shown[i] == m;
      assert Firsts(Sources(shown))[i] == m.id;
      RecordedSessions(index, sessionId, Firsts(Sources(shown)), m.id);
    }
  }

  method RememberOutcome(memory: LocalMemoryClient, sessionId: string, prompt: string, result: string)
    modifies memory
    ensures memory.State() == LocalStep(memory.cfg, old(memory.State()), SummaryCall(sessionId, prompt, result)).0
    ensures HasSummary(memory.memories, sessionId, SummaryText(sessionId, prompt, result))
  {
    var summary := SummaryText(sessionId, prompt, result);
    var tags := ["task-summary", SessionTag(sessionId)];
    PutIsIn(memory.memories, Memory("m" + Dec(memory.nextId), summary, tags, QUARANTINE_TIER, ON_RECALL_DELIVERY));
    var _ := memory.Remember(summary, tags, QUARANTINE_TIER, ON_RECALL_DELIVERY);
    assert SessionTag(sessionId) == tags[1];
  }

  lemma {:induction false} PutIsIn(ms: seq<Memory>, m: Memory)
    ensures m in Put(ms, m)
  {
    if |ms| != 0 && ms[0].id != m.id { PutIsIn(ms[1..], m); }
  }

  lemma FlattenThree(a: seq<Memory>, b: seq<Memory>, c: seq<Memory>)
    ensures Flatten([a, b, c]) == a + b + c
  {
    assert [a, b, c][1..] == [b, c] && [b, c][1..] == [c] && [c][1..] == [];
    assert Flatten([c]) == c + [];
    assert Flatten([b, c]) == b + (c + []);
  }

  lemma {:induction false} DedupFrom(ms: seq<Memory>, seen: set<string>)
    ensures forall m :: m in Dedup(ms, seen) ==> m in ms
    decreases |ms|
  {
    if |ms| != 0 {
      DedupFrom(ms[1..], seen);
      DedupFrom(ms[1..], seen + {ms[0].id});
    }
  }

  /** Nothing untrusted, and nothing that is not stored, reaches a session start. */
  lemma BootstrapIsTrusted(cfg: Config, s: Local, query: string, k: nat)
    requires 1 <= k <= 100
    ensures var out := LocalStep(cfg, s, Op.Bootstrap(query, k)).1;
            && out.Context?
            && (forall m :: m in out.pinned || m in out.recalled ==> m in s.memories && m.trustTier == TRUSTED_TIER)
  {
    var ms := Filter(s.memories, Matching(cfg, query, true, []));
    RankedFrom(cfg, ms, LocalScores(s, ms), s.drawn);
    FilterMembers(s.memories, Matching(cfg, query, true, []));
    FilterMembers(s.memories, Pinned());
    FilterMembers(Filter(s.memories, Pinned()), Trusted());
    var ranked := LocalRecall(cfg, s, query, true, []).1;
    assert forall m :: m in Take(ranked, k) ==> m in ranked;
  }

  lemma RankedFrom(cfg: Config, ms: seq<Memory>, scores: seq<int>, drawn: nat)
    requires |scores| == |ms|
    ensures forall m :: m in Ranked(cfg, ms, scores, drawn) ==> m in ms
  {
    var keyed := WithKeys(cfg, ms, scores, drawn);
    SortPermutes(keyed);
    forall m | m in Map(SortDesc(keyed), MemoryOf())
      ensures m in ms
    {
      var i :| 0 <= i < |SortDesc(keyed)| && SortDesc(keyed)[i].memory == m;
      assert SortDesc(keyed)[i] in multiset(SortDesc(keyed));
      assert SortDesc(keyed)[i] in keyed;
    }
  }
}
