/** The in-process backend: dicts keyed by id, and the class that updates them. */
module LocalMemory {
  import opened Base
  import opened Text
  import opened MemoryModel

  type Edge = (string, string)

  /** A call on a memory client (the agent protocol and the host-side verbs). */
  datatype Op =
    | Remember(text: string, tags: seq<string>, trustTier: string, deliveryMode: string)
    | Recall(query: string, trustedOnly: bool, tags: seq<string>)
    | LoadPinned
    | Bootstrap(query: string, recallK: int)
    | CreateEdge(src: string, dst: string, kind: string)
    | EdgesOf(id: string)
    | Promote(id: string)
    | RecordFeedback(id: string, query: string, helpful: bool)
    | FeedbackFor(id: string)
    | HasMemory(id: string)
    | Forget(id: string)
    | IdsWithTag(tag: string)

  /** What the call returned or raised. */
  datatype Out =
    | Done
    | NewId(id: string)
    | Memories(memories: seq<Memory>)
    | Context(pinned: seq<Memory>, recalled: seq<Memory>)
    | Edges(edges: seq<Edge>)
    | Feedback(records: seq<FeedbackRecord>)
    | Flag(flag: bool)
    | Ids(ids: seq<string>)
    | KeyError(id: string)
    | ValueError
    | StorageError

  /** `memories` is the dict in insertion order: the key of an entry is its memory's id. */
  datatype Local = Local(
    memories: seq<Memory>,
    edges: map<string, seq<Edge>>,
    feedback: map<string, seq<FeedbackRecord>>,
    nextId: nat,
    drawn: nat)

  const EmptyLocal := Local([], map[], map[], 1, 0)

  function Listed<V>(m: map<string, seq<V>>, key: string): seq<V> {
    if key in m then m[key] else []
  }

  function Append<V>(m: map<string, seq<V>>, key: string, v: V): map<string, seq<V>> {
    m[key := Listed(m, key) + [v]]
  }

  predicate HasId(ms: seq<Memory>, id: string) {
    exists i | 0 <= i < |ms| :: ms[i].id == id
  }

  /** Dict assignment: an existing key keeps its place, a new key goes last. */
  function Put(ms: seq<Memory>, m: Memory): seq<Memory> {
    if |ms| == 0 then [m]
    else if ms[0].id == m.id then [m] + ms[1..]
    else [ms[0]] + Put(ms[1..], m)
  }

  function Promoted(id: string): Memory -> Memory {
    (m: Memory) => if m.id == id then m.(trustTier := TRUSTED_TIER) else m
  }

  function KeepMemory(ids: set<string>): Memory -> bool {
    (m: Memory) => m.id !in ids
  }

  function KeepTarget(ids: set<string>): Edge -> bool {
    (e: Edge) => e.0 !in ids
  }

  /** Everything that names one of `ids` is gone; the rest is untouched. */
  function Erase(s: Local, ids: set<string>): Local {
    s.(memories := Filter(s.memories, KeepMemory(ids)),
       edges := map src | src in s.edges && src !in ids :: Filter(s.edges[src], KeepTarget(ids)),
       feedback := map id | id in s.feedback && id !in ids :: s.feedback[id])
  }

  function LocalScores(s: Local, ms: seq<Memory>): (r: seq<int>)
    ensures |r| == |ms|
  {
    seq(|ms|, i requires 0 <= i < |ms| => Clamp(NetHelpful(Listed(s.feedback, ms[i].id))))
  }

  /** `recall`: the state keeps the number of random draws the call made. */
  function LocalRecall(cfg: Config, s: Local, query: string, trustedOnly: bool, tags: seq<string>): (Local, seq<Memory>) {
    var ms := Filter(s.memories, Matching(cfg, query, trustedOnly, tags));
    (s.(drawn := s.drawn + Draws(cfg, |ms|)), Ranked(cfg, ms, LocalScores(s, ms), s.drawn))
  }

  function Take<T>(s: seq<T>, k: nat): seq<T> {
    if k <= |s| then s[..k] else s
  }

  function LocalStep(cfg: Config, s: Local, op: Op): (Local, Out) {
    match op
    case Remember(text, tags, tier, mode) =>
      if !ValidDelivery(mode) then (s, ValueError) else
        var id := "m" + Dec(s.nextId);
        (s.(memories := Put(s.memories, Memory(id, text, tags, tier, mode)), nextId := s.nextId + 1), NewId(id))
    case Recall(query, trustedOnly, tags) =>
      var (s', ms) := LocalRecall(cfg, s, query, trustedOnly, tags);
      (s', Memories(ms))
    case LoadPinned => (s, Memories(Filter(s.memories, Pinned())))
    case Bootstrap(query, k) =>
      if !(1 <= k <= 100) then (s, ValueError) else
        var (s', ms) := LocalRecall(cfg, s, query, true, []);
        (s', Context(Filter(Filter(s.memories, Pinned()), Trusted()), Take(ms, k)))
    case CreateEdge(src, dst, kind) => (s.(edges := Append(s.edges, src, (dst, kind))), Done)
    case EdgesOf(id) => (s, Edges(Listed(s.edges, id)))
    case Promote(id) =>
      if !HasId(s.memories, id) then (s, KeyError(id))
      else (s.(memories := Map(s.memories, Promoted(id))), Done)
    case RecordFeedback(id, query, helpful) =>
      if !HasId(s.memories, id) then (s, KeyError(id))
      else (s.(feedback := Append(s.feedback, id, FeedbackRecord(id, query, helpful))), Done)
    case FeedbackFor(id) => (s, Feedback(Listed(s.feedback, id)))
    case HasMemory(id) => (s, Flag(HasId(s.memories, id)))
    case Forget(id) =>
      if !HasId(s.memories, id) then (s, KeyError(id)) else (Erase(s, {id}), Done)
    case IdsWithTag(tag) => (s, Ids(Map(Filter(s.memories, Tagged(tag)), IdOf())))
  }

  // ---- the keys of the dict ------------------------------------------------------

  ghost predicate HandedOut(id: string, nextId: nat) {
    exists k: nat :: 1 <= k < nextId && id == "m" + Dec(k)
  }

  /** The keys were handed out by the counter, and each is there once. */
  ghost predicate OwnIds(ms: seq<Memory>, nextId: nat) {
    && (forall i :: 0 <= i < |ms| ==> HandedOut(ms[i].id, nextId))
    && (forall i, j :: 0 <= i < j < |ms| ==> ms[i].id != ms[j].id)
  }

  lemma {:induction false} PutFresh(ms: seq<Memory>, m: Memory)
    requires !HasId(ms, m.id)
    ensures Put(ms, m) == ms + [m]
  {
    if |ms| != 0 {
      assert ms[0].id != m.id;
      assert forall i :: 0 <= i < |ms[1..]| ==> ms[1..][i] == ms[i + 1];
      PutFresh(ms[1..], m);
    }
  }

  lemma NextIdIsNew(ms: seq<Memory>, nextId: nat)
    requires OwnIds(ms, nextId)
    ensures !HasId(ms, "m" + Dec(nextId))
  {
    if i :| 0 <= i < |ms| && ms[i].id == "m" + Dec(nextId) {
      var k: nat :| 1 <= k < nextId && ms[i].id == "m" + Dec(k);
      assert ("m" + Dec(k))[1..] == Dec(k) && ("m" + Dec(nextId))[1..] == Dec(nextId);
      DecInjective(k, nextId);
    }
  }

  lemma OneMoreId(ms: seq<Memory>, m: Memory, nextId: nat)
    requires OwnIds(ms, nextId) && nextId >= 1 && m.id == "m" + Dec(nextId)
    ensures OwnIds(ms + [m], nextId + 1)
  {
    NextIdIsNew(ms, nextId);
    forall i | 0 <= i < |ms|
      ensures HandedOut(ms[i].id, nextId + 1)
    {
      assert HandedOut(ms[i].id, nextId);
    }
  }

  lemma {:induction false} FewerIds(ms: seq<Memory>, p: Memory -> bool, nextId: nat)
    requires OwnIds(ms, nextId)
    ensures OwnIds(Filter(ms, p), nextId)
  {
    hide HandedOut;
    if |ms| != 0 {
      var rest := Filter(ms[1..], p);
      FewerIds(ms[1..], p, nextId);
      FilterMembers(ms[1..], p);
      forall j | 0 <= j < |rest|
        ensures rest[j].id != ms[0].id
      {
        assert rest[j] in ms[1..];
        var k :| 0 <= k < |ms[1..]| && ms[1..][k] == rest[j];
        assert ms[k + 1] == rest[j];
      }
    }
  }

  /** The entry under a key. */
  function Entry(ms: seq<Memory>, id: string): (m: Memory)
    requires HasId(ms, id)
    ensures m in ms && m.id == id
  {
    if ms[0].id == id then ms[0] else
      assert exists i | 0 <= i < |ms[1..]| :: ms[1..][i].id == id by {
        var i :| 0 <= i < |ms| && ms[i].id == id;
        assert ms[1..][i - 1].id == id;
      }
      Entry(ms[1..], id)
  }

  /** Assigning one changed entry changes that memory and no other. */
  lemma {:induction false} PutPromoted(ms: seq<Memory>, id: string)
    requires HasId(ms, id) && forall i, j :: 0 <= i < j < |ms| ==> ms[i].id != ms[j].id
    ensures Put(ms, Entry(ms, id).(trustTier := TRUSTED_TIER)) == Map(ms, Promoted(id))
  {
    if ms[0].id == id {
      forall i | 0 <= i < |ms[1..]|
        ensures Promoted(id)(ms[1..][i]) == ms[1..][i]
      {
        assert ms[0].id != ms[i + 1].id;
      }
    } else {
      PutPromoted(ms[1..], id);
    }
  }

  lemma PromotedIds(ms: seq<Memory>, id: string, nextId: nat)
    requires OwnIds(ms, nextId)
    ensures OwnIds(Map(ms, Promoted(id)), nextId)
  {
    hide HandedOut;
    assert forall i :: 0 <= i < |ms| ==> Promoted(id)(ms[i]).id == ms[i].id;
  }

  // ---- the class ---------------------------------------------------------------

  class LocalMemoryClient {
    const cfg: Config
    var memories: seq<Memory>
    var edges: map<string, seq<Edge>>
    var feedback: map<string, seq<FeedbackRecord>>
    var nextId: nat
    var drawn: nat

    function State(): Local
      reads this
    {
      Local(memories, edges, feedback, nextId, drawn)
    }

    ghost predicate Valid()
      reads `memories, `nextId
    {
      nextId >= 1 && OwnIds(memories, nextId)
    }

    constructor (cfg: Config)
      ensures this.cfg == cfg && State() == EmptyLocal && Valid()
    {
      this.cfg := cfg;
      memories, edges, feedback, nextId, drawn := [], map[], map[], 1, 0;
    }

    method Remember(text: string, tags: seq<string>, tier: string, mode: string) returns (out: Out)
      modifies this
      ensures (State(), out) == LocalStep(cfg, old(State()), Op.Remember(text, tags, tier, mode))
      ensures out.NewId? <==> ValidDelivery(mode)
      ensures old(Valid()) ==> Valid()
      ensures old(Valid()) && out.NewId? ==>
        !HasId(old(memories), out.id) && memories == old(memories) + [Memory(out.id, text, tags, tier, mode)]
    {
      if !ValidDelivery(mode) {
        return ValueError;
      }
      var id := "m" + Dec(nextId);
      if Valid() {
        NextIdIsNew(memories, nextId);
        PutFresh(memories, Memory(id, text, tags, tier, mode));
        OneMoreId(memories, Memory(id, text, tags, tier, mode), nextId);
      }
      memories := Put(memories, Memory(id, text, tags, tier, mode));
      nextId := nextId + 1;
      out := NewId(id);
    }

    /** The scan appends each match in turn; the re-rank then draws once per match. */
    method Recall(query: string, trustedOnly: bool, tags: seq<string>) returns (results: seq<Memory>)
      modifies this`drawn
      ensures (State(), results) == LocalRecall(cfg, old(State()), query, trustedOnly, tags)
    {
      results := ScanMatches(cfg, memories, query, trustedOnly, tags);
      if cfg.rerank {
        var keyed := WithKeys(cfg, results, LocalScores(State(), results), drawn);
        drawn := drawn + Draws(cfg, |results|);
        results := Map(SortDesc(keyed), MemoryOf());
      }
    }

    method LoadPinned() returns (out: Out)
      ensures (State(), out) == LocalStep(cfg, State(), Op.LoadPinned)
    {
      out := Memories(Filter(memories, Pinned()));
    }

    method Bootstrap(query: string, recallK: int) returns (out: Out)
      modifies this`drawn
      ensures (State(), out) == LocalStep(cfg, old(State()), Op.Bootstrap(query, recallK))
    {
      if !(1 <= recallK <= 100) {
        return ValueError;
      }
      var pinned := Filter(Filter(memories, Pinned()), Trusted());
      var ms := Recall(query, true, []);
      out := Context(pinned, Take(ms, recallK));
    }

    method CreateEdge(src: string, dst: string, kind: string)
      modifies this`edges
      ensures (State(), Done) == LocalStep(cfg, old(State()), Op.CreateEdge(src, dst, kind))
    {
      if src !in edges {
        edges := edges[src := []];
      }
      edges := edges[src := edges[src] + [(dst, kind)]];
      assert edges == Append(old(edges), src, (dst, kind));
    }

    method EdgesOf(src: string) returns (r: seq<Edge>)
      ensures (State(), Edges(r)) == LocalStep(cfg, State(), Op.EdgesOf(src))
    {
      r := Listed(edges, src);
    }

    /** The entry is read and assigned again under its key: only the tier of that memory changes. */
    method Promote(id: string) returns (out: Out)
      requires Valid()
      modifies this`memories
      ensures (State(), out) == LocalStep(cfg, old(State()), Op.Promote(id))
      ensures Valid()
    {
      hide HasId, Put, Map, Entry, HandedOut;
      if !HasId(memories, id) {
        return KeyError(id);
      }
      PutPromoted(memories, id);
      PromotedIds(memories, id, nextId);
      memories := Put(memories, Entry(memories, id).(trustTier := TRUSTED_TIER));
      out := Done;
    }

    method RecordFeedback(id: string, query: string, helpful: bool) returns (out: Out)
      modifies this`feedback
      ensures (State(), out) == LocalStep(cfg, old(State()), Op.RecordFeedback(id, query, helpful))
    {
      if !HasId(memories, id) {
        return KeyError(id);
      }
      if id !in feedback {
        feedback := feedback[id := []];
      }
      feedback := feedback[id := feedback[id] + [FeedbackRecord(id, query, helpful)]];
      assert feedback == Append(old(feedback), id, FeedbackRecord(id, query, helpful));
      out := Done;
    }

    method FeedbackFor(id: string) returns (r: seq<FeedbackRecord>)
      ensures (State(), Feedback(r)) == LocalStep(cfg, State(), Op.FeedbackFor(id))
    {
      r := Listed(feedback, id);
    }

    method HasMemory(id: string) returns (b: bool)
      ensures b == HasId(memories, id)
    {
      b := HasId(memories, id);
    }

    /** Delete the entry, its lanes, then sweep every other source for dangling targets. */
    method Forget(id: string) returns (out: Out)
      modifies this
      ensures (State(), out) == LocalStep(cfg, old(State()), Op.Forget(id))
      ensures old(HasId(memories, id)) ==> State() == Erase(old(State()), {id})
      ensures old(Valid()) ==> Valid()
    {
      hide Filter, HasId, OwnIds, Put, Listed, Append, LocalRecall, Take, Dec, ValidDelivery;
      if Valid() { FewerIds(memories, KeepMemory({id}), nextId); }
      if !HasId(memories, id) {
        return KeyError(id);
      }
      ghost var erased := Erase(State(), {id});
      memories := Filter(memories, KeepMemory({id}));
      feedback := feedback - {id};
      edges := edges - {id};
      SweepTargets(id);
      assert feedback == erased.feedback && edges == erased.edges;
      out := Done;
    }

    method SweepTargets(id: string)
      modifies this`edges
      ensures edges == map src | src in old(edges) :: Filter(old(edges)[src], KeepTarget({id}))
    {
      var todo := edges.Keys;
      while todo != {}
        invariant todo <= edges.Keys == old(edges).Keys
        invariant forall src :: src in edges ==>
          edges[src] == if src in todo then old(edges)[src] else Filter(old(edges)[src], KeepTarget({id}))
      {
        var src :| src in todo;
        var kept := Filter(edges[src], KeepTarget({id}));
        if |kept| != |edges[src]| {
          edges := edges[src := kept];
        } else {
          FilterAll(edges[src], KeepTarget({id}));
        }
        todo := todo - {src};
      }
    }

    method IdsWithTag(tag: string) returns (ids: seq<string>)
      ensures ids == Map(Filter(memories, Tagged(tag)), IdOf())
    {
      ids := Map(Filter(memories, Tagged(tag)), IdOf());
    }
  }

  lemma {:induction false} FilterLength<T>(s: seq<T>, p: T -> bool)
    ensures |Filter(s, p)| <= |s|
  {
    if |s| != 0 { FilterLength(s[1..], p); }
  }

  /** When filtering removed nothing, the list is unchanged (so skipping the write is sound). */
  lemma {:induction false} FilterAll<T>(s: seq<T>, p: T -> bool)
    requires |Filter(s, p)| == |s|
    ensures Filter(s, p) == s
  {
    if |s| != 0 {
      FilterLength(s[1..], p);
      FilterAll(s[1..], p);
    }
  }

  // ---- erasing in pieces ---------------------------------------------------------

  /** Erasing one set after another erases their union: the order of deletions cannot matter. */
  lemma EraseCompose(s: Local, a: set<string>, b: set<string>)
    ensures Erase(Erase(s, a), b) == Erase(s, a + b)
  {
    var twice, once := Erase(Erase(s, a), b), Erase(s, a + b);
    FilterFilter(s.memories, KeepMemory(a), KeepMemory(b));
    FilterSame(s.memories, Both(KeepMemory(a), KeepMemory(b)), KeepMemory(a + b));
    forall src | src in once.edges
      ensures src in twice.edges && twice.edges[src] == once.edges[src]
    {
      var es := s.edges[src];
      FilterFilter(es, KeepTarget(a), KeepTarget(b));
      FilterSame(es, Both(KeepTarget(a), KeepTarget(b)), KeepTarget(a + b));
    }
    assert twice.edges == once.edges && twice.feedback == once.feedback;
  }

  lemma EraseNothing(s: Local)
    ensures Erase(s, {}) == s
  {
    FilterKeepsAll(s.memories, KeepMemory({}));
    forall src | src in s.edges
      ensures Filter(s.edges[src], KeepTarget({})) == s.edges[src]
    {
      FilterKeepsAll(s.edges[src], KeepTarget({}));
    }
    assert Erase(s, {}).edges == s.edges && Erase(s, {}).feedback == s.feedback;
  }
}
