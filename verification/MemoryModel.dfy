/** What both memory backends share: the records, the recall test, and the bounded re-rank. */
module MemoryModel {
  import opened Base
  import opened Text

  const TRUSTED_TIER := "trusted"
  const QUARANTINE_TIER := "quarantine"
  const ALWAYS_DELIVERY := "always"
  const ON_RECALL_DELIVERY := "on_recall"
  const RERANK_BOUND := 3

  datatype Memory = Memory(id: string, text: string, tags: seq<string>, trustTier: string, deliveryMode: string)

  datatype FeedbackRecord = FeedbackRecord(memoryId: string, query: string, helpful: bool)

  /** The constructor arguments, the random stream the seed fixes, and Unicode `lower` and `split`. */
  datatype Config = Config(
    rerank: bool,
    epsilon: real,
    rng: nat -> real,
    lower: string -> string,
    split: string -> seq<string>)

  predicate ValidDelivery(mode: string) {
    mode == ALWAYS_DELIVERY || mode == ON_RECALL_DELIVERY
  }

  function Matching(cfg: Config, query: string, trustedOnly: bool, tags: seq<string>): Memory -> bool {
    (m: Memory) =>
      && (trustedOnly ==> m.trustTier == TRUSTED_TIER)
      && (tags == [] || exists t | t in tags :: t in m.tags)
      && exists term | term in cfg.split(query) :: Contains(cfg.lower(m.text), cfg.lower(term))
  }

  /** The scan of `recall`: each match is appended in insertion order. */
  method ScanMatches(cfg: Config, memories: seq<Memory>, query: string, trustedOnly: bool, tags: seq<string>)
    returns (results: seq<Memory>)
    ensures results == Filter(memories, Matching(cfg, query, trustedOnly, tags))
  {
    ghost var p := Matching(cfg, query, trustedOnly, tags);
    results := [];
    for i := 0 to |memories|
      invariant results == Filter(memories[..i], p)
    {
      var mem := memories[i];
      assert memories[..i + 1] == memories[..i] + [mem];
      FilterSnoc(memories[..i], mem, p);
      if trustedOnly && mem.trustTier != TRUSTED_TIER { continue; }
      if tags != [] && !(exists t | t in tags :: t in mem.tags) { continue; }
      var haystack := cfg.lower(mem.text);
      if exists term | term in cfg.split(query) :: Contains(haystack, cfg.lower(term)) {
        results := results + [mem];
      }
    }
    assert memories[..|memories|] == memories;
  }

  function Pinned(): Memory -> bool {
    (m: Memory) => m.deliveryMode == ALWAYS_DELIVERY
  }

  function Trusted(): Memory -> bool {
    (m: Memory) => m.trustTier == TRUSTED_TIER
  }

  function Tagged(tag: string): Memory -> bool {
    (m: Memory) => tag in m.tags
  }

  function IdOf(): Memory -> string {
    (m: Memory) => m.id
  }

  // ---- feedback score --------------------------------------------------------

  function NetHelpful(fs: seq<FeedbackRecord>): int {
    if |fs| == 0 then 0 else (if fs[0].helpful then 1 else -1) + NetHelpful(fs[1..])
  }

  function Clamp(n: int): (r: int)
    ensures -RERANK_BOUND <= r <= RERANK_BOUND
    ensures -RERANK_BOUND <= n <= RERANK_BOUND ==> r == n
  {
    if n < -RERANK_BOUND then -RERANK_BOUND else if n > RERANK_BOUND then RERANK_BOUND else n
  }

  // ---- the stable sort of `recall` -------------------------------------------

  datatype Keyed = Keyed(key: int, memory: Memory)

  function MemoryOf(): Keyed -> Memory {
    (k: Keyed) => k.memory
  }

  predicate Explores(cfg: Config, draw: nat) {
    cfg.epsilon != 0.0 && cfg.rng(draw) < cfg.epsilon
  }

  /** The sort keys, in list order; the draw with index `drawn + i` belongs to the i-th match. */
  function WithKeys(cfg: Config, ms: seq<Memory>, scores: seq<int>, drawn: nat): (r: seq<Keyed>)
    requires |scores| == |ms|
    ensures |r| == |ms| && forall i :: 0 <= i < |ms| ==> r[i].memory == ms[i]
    ensures forall i :: 0 <= i < |ms| ==> r[i].key == if Explores(cfg, drawn + i) then RERANK_BOUND else scores[i]
  {
    seq(|ms|, i requires 0 <= i < |ms| =>
      Keyed(if Explores(cfg, drawn + i) then RERANK_BOUND else scores[i], ms[i]))
  }

  function InsertDesc(sorted: seq<Keyed>, x: Keyed): seq<Keyed> {
    if |sorted| == 0 || sorted[|sorted| - 1].key >= x.key then sorted + [x]
    else InsertDesc(sorted[..|sorted| - 1], x) + [sorted[|sorted| - 1]]
  }

  /** `list.sort(key=..., reverse=True)`: descending, equal keys keep their order. */
  function SortDesc(xs: seq<Keyed>): seq<Keyed> {
    if |xs| == 0 then [] else InsertDesc(SortDesc(xs[..|xs| - 1]), xs[|xs| - 1])
  }

  function Draws(cfg: Config, n: nat): nat {
    if cfg.rerank && cfg.epsilon != 0.0 then n else 0
  }

  function Ranked(cfg: Config, ms: seq<Memory>, scores: seq<int>, drawn: nat): seq<Memory>
    requires |scores| == |ms|
  {
    if cfg.rerank then Map(SortDesc(WithKeys(cfg, ms, scores, drawn)), MemoryOf()) else ms
  }

  // ---- what the re-rank is, declaratively --------------------------------------

  function HasKey(k: int): Keyed -> bool {
    (x: Keyed) => x.key == k
  }

  /** The elements of key `hi`, then those of `hi - 1`, and so on down to `lo`, each in list order. */
  function Tiers(xs: seq<Keyed>, lo: int, hi: int): seq<Keyed>
    decreases hi - lo + 1
  {
    if hi < lo then [] else Filter(xs, HasKey(hi)) + Tiers(xs, lo, hi - 1)
  }

  lemma {:induction false} TiersRange(xs: seq<Keyed>, lo: int, hi: int)
    ensures forall x :: x in Tiers(xs, lo, hi) ==> x in xs && lo <= x.key <= hi
    decreases hi - lo + 1
  {
    if hi >= lo {
      FilterMembers(xs, HasKey(hi));
      TiersRange(xs, lo, hi - 1);
    }
  }

  lemma {:induction false} InsertAboveAll(a: seq<Keyed>, b: seq<Keyed>, x: Keyed)
    requires forall y :: y in b ==> y.key < x.key
    ensures InsertDesc(a + b, x) == InsertDesc(a, x) + b
  {
    if |b| == 0 {
      assert a + b == a;
    } else {
      var t := a + b;
      assert t[|t| - 1] == b[|b| - 1] && b[|b| - 1] in b;
      assert t[..|t| - 1] == a + b[..|b| - 1];
      InsertAboveAll(a, b[..|b| - 1], x);
      assert b == b[..|b| - 1] + [b[|b| - 1]];
    }
  }

  lemma {:induction false} TiersSkip(xs: seq<Keyed>, x: Keyed, lo: int, hi: int)
    requires x.key > hi
    ensures Tiers(xs + [x], lo, hi) == Tiers(xs, lo, hi)
    decreases hi - lo + 1
  {
    if hi >= lo {
      FilterSnoc(xs, x, HasKey(hi));
      TiersSkip(xs, x, lo, hi - 1);
    }
  }

  lemma {:induction false} InsertBelowAll(a: seq<Keyed>, b: seq<Keyed>, x: Keyed)
    requires forall y :: y in a ==> y.key >= x.key
    ensures InsertDesc(a + b, x) == a + InsertDesc(b, x)
  {
    var t := a + b;
    if |b| == 0 {
      assert t == a;
      assert |a| > 0 ==> a[|a| - 1] in a;
    } else {
      assert t[|t| - 1] == b[|b| - 1] && t[..|t| - 1] == a + b[..|b| - 1];
      InsertBelowAll(a, b[..|b| - 1], x);
    }
  }

  lemma InsertAtEnd(a: seq<Keyed>, x: Keyed)
    requires forall y :: y in a ==> y.key >= x.key
    ensures InsertDesc(a, x) == a + [x]
  {
    assert |a| > 0 ==> a[|a| - 1] in a;
  }

  /** Inserting at the end of its tier is what `InsertDesc` does to a tiered list. */
  lemma {:induction false} InsertIntoTiers(xs: seq<Keyed>, x: Keyed, lo: int, hi: int)
    requires lo <= x.key <= hi
    ensures InsertDesc(Tiers(xs, lo, hi), x) == Tiers(xs + [x], lo, hi)
    decreases hi - lo
  {
    hide InsertDesc, Filter;
    var same, low := Filter(xs, HasKey(hi)), Tiers(xs, lo, hi - 1);
    TiersRange(xs, lo, hi - 1);
    FilterMembers(xs, HasKey(hi));
    InsertTwoParts(same, low, x, hi);
    FilterSnoc(xs, x, HasKey(hi));
    if x.key == hi {
      TiersSkip(xs, x, lo, hi - 1);
    } else {
      InsertIntoTiers(xs, x, lo, hi - 1);
    }
  }

  lemma InsertTwoParts(same: seq<Keyed>, low: seq<Keyed>, x: Keyed, hi: int)
    requires forall y :: y in same ==> y.key == hi
    requires forall y :: y in low ==> y.key < hi
    requires x.key <= hi
    ensures InsertDesc(same + low, x)
      == if x.key == hi then (same + [x]) + low else same + InsertDesc(low, x)
  {
    if x.key == hi {
      InsertAboveAll(same, low, x);
      InsertAtEnd(same, x);
    } else {
      InsertBelowAll(same, low, x);
    }
  }

  /** The re-rank is the seven feedback tiers from +3 to -3, each in insertion order. */
  lemma {:induction false} SortIsTiers(xs: seq<Keyed>, lo: int, hi: int)
    requires lo <= hi && forall x :: x in xs ==> lo <= x.key <= hi
    ensures SortDesc(xs) == Tiers(xs, lo, hi)
  {
    if |xs| == 0 {
      EmptyTiers(lo, hi);
    } else {
      var init, x := xs[..|xs| - 1], xs[|xs| - 1];
      assert xs == init + [x];
      SortIsTiers(init, lo, hi);
      InsertIntoTiers(init, x, lo, hi);
    }
  }

  lemma {:induction false} EmptyTiers(lo: int, hi: int)
    ensures Tiers([], lo, hi) == []
    decreases hi - lo + 1
  {
    if hi >= lo { EmptyTiers(lo, hi - 1); }
  }

  /** Nothing is lost or invented by the sort. */
  lemma {:induction false} SortPermutes(xs: seq<Keyed>)
    ensures multiset(SortDesc(xs)) == multiset(xs)
  {
    if |xs| > 0 {
      var init, x := xs[..|xs| - 1], xs[|xs| - 1];
      assert xs == init + [x];
      SortPermutes(init);
      InsertPermutes(SortDesc(init), x);
    }
  }

  lemma {:induction false} InsertPermutes(s: seq<Keyed>, x: Keyed)
    ensures multiset(InsertDesc(s, x)) == multiset(s) + multiset{x}
  {
    if |s| > 0 && s[|s| - 1].key < x.key {
      assert s == s[..|s| - 1] + [s[|s| - 1]];
      InsertPermutes(s[..|s| - 1], x);
    }
  }

  /**
   * The bounded boost: every match is still returned exactly as often, a score clamped to the
   * bound decides the tier, and inside a tier insertion order is kept.
   */
  lemma RerankBoundedAndComplete(cfg: Config, ms: seq<Memory>, scores: seq<int>, drawn: nat)
    requires |scores| == |ms|
    requires forall i :: 0 <= i < |scores| ==> -RERANK_BOUND <= scores[i] <= RERANK_BOUND
    ensures var keyed := WithKeys(cfg, ms, scores, drawn);
            && SortDesc(keyed) == Tiers(keyed, -RERANK_BOUND, RERANK_BOUND)
            && multiset(SortDesc(keyed)) == multiset(keyed)
  {
    var keyed := WithKeys(cfg, ms, scores, drawn);
    SortIsTiers(keyed, -RERANK_BOUND, RERANK_BOUND);
    SortPermutes(keyed);
  }
}
