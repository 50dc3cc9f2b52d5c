/** What the calls of both memory clients answer, in terms of the stored records only. */
module MemoryAnswers {
  import opened Base
  import opened Permutations
  import opened Text
  import opened MemoryModel
  import opened LocalMemory
  import opened SqliteMemory
  import opened MemoryRefinement

  // ---- which memories a recall finds -----------------------------------------------------

  lemma MatchMeans(cfg: Config, query: string, trustedOnly: bool, tags: seq<string>, m: Memory)
    ensures Matching(cfg, query, trustedOnly, tags)(m) <==>
              && (trustedOnly ==> m.trustTier == "trusted")
              && (tags == [] || exists i, j :: 0 <= i < |tags| && 0 <= j < |m.tags| && tags[i] == m.tags[j])
              && (exists i :: 0 <= i < |cfg.split(query)|
                    && exists before, after :: cfg.lower(m.text) == before + cfg.lower(cfg.split(query)[i]) + after)
  {
    var terms, hay := cfg.split(query), cfg.lower(m.text);
    TagsMeet(tags, m.tags);
    forall i | 0 <= i < |terms|
      ensures Contains(hay, cfg.lower(terms[i])) <==> exists before, after :: hay == before + cfg.lower(terms[i]) + after
    {
      Occurs(hay, cfg.lower(terms[i]));
    }
    assert forall i :: 0 <= i < |terms| ==> terms[i] in terms;
    hide Contains;
    if term :| term in terms && Contains(hay, cfg.lower(term)) {
      var i :| 0 <= i < |terms| && terms[i] == term;
    }
  }

  lemma Occurs(hay: string, needle: string)
    ensures Contains(hay, needle) <==> exists before, after :: hay == before + needle + after
  {
    if before, after :| hay == before + needle + after {
      assert At(hay, needle, |before|);
    }
    if k: nat :| k <= |hay| && At(hay, needle, k) {
      assert hay == hay[..k] + needle + hay[k + |needle|..];
    }
  }

  lemma TagsMeet(tags: seq<string>, own: seq<string>)
    ensures (exists t | t in tags :: t in own) <==> exists i, j :: 0 <= i < |tags| && 0 <= j < |own| && tags[i] == own[j]
  {
    if t :| t in tags && t in own {
      var i :| 0 <= i < |tags| && tags[i] == t;
      var j :| 0 <= j < |own| && own[j] == t;
      assert tags[i] == own[j];
    }
    if i, j :| 0 <= i < |tags| && 0 <= j < |own| && tags[i] == own[j] {
      assert tags[i] in tags && tags[i] in own;
    }
  }

  /** The re-rank returns each match exactly as often. */
  lemma RankedPermutes(cfg: Config, ms: seq<Memory>, scores: seq<int>, drawn: nat)
    requires |scores| == |ms|
    ensures multiset(Ranked(cfg, ms, scores, drawn)) == multiset(ms)
    ensures |Ranked(cfg, ms, scores, drawn)| == |ms| && forall m :: m in Ranked(cfg, ms, scores, drawn) <==> m in ms
  {
    if cfg.rerank {
      var keyed := WithKeys(cfg, ms, scores, drawn);
      SortPermutes(keyed);
      MapPermutes(SortDesc(keyed), keyed, MemoryOf());
      assert Map(keyed, MemoryOf()) == ms;
    }
    SameMembers(Ranked(cfg, ms, scores, drawn), ms);
  }

  /**
   * A stored memory is in the result if and only if it is trusted when only trusted ones are asked for, it has one of the tags
   * when tags are given, and the text holds some term of the query, both lower-cased.
   */
  lemma RecallFinds(cfg: Config, s: Local, query: string, trustedOnly: bool, tags: seq<string>, m: Memory)
    ensures var out := LocalStep(cfg, s, Op.Recall(query, trustedOnly, tags)).1;
            out.Memories? &&
            (m in out.memories <==>
              && m in s.memories
              && (trustedOnly ==> m.trustTier == "trusted")
              && (tags == [] || exists i, j :: 0 <= i < |tags| && 0 <= j < |m.tags| && tags[i] == m.tags[j])
              && (exists i :: 0 <= i < |cfg.split(query)|
                    && exists before, after :: cfg.lower(m.text) == before + cfg.lower(cfg.split(query)[i]) + after))
  {
    MatchMeans(cfg, query, trustedOnly, tags, m);
    hide Ranked, Matching;
    var ms := Filter(s.memories, Matching(cfg, query, trustedOnly, tags));
    FilterMembers(s.memories, Matching(cfg, query, trustedOnly, tags));
    RankedPermutes(cfg, ms, LocalScores(s, ms), s.drawn);
  }

  /** The same for the durable client, whose memories are its rows. */
  lemma SqlRecallFinds(cfg: Config, q: Sql, query: string, trustedOnly: bool, tags: seq<string>, m: Memory)
    ensures var out := SqlStep(cfg, q, Op.Recall(query, trustedOnly, tags)).1;
            out.Memories? &&
            (m in out.memories <==>
              && (exists i :: 0 <= i < |q.rows|
                    && m == Memory("m" + Dec(q.rows[i].seqNo), q.rows[i].text, q.rows[i].tags, q.rows[i].trustTier,
                                   q.rows[i].deliveryMode))
              && (trustedOnly ==> m.trustTier == "trusted")
              && (tags == [] || exists i, j :: 0 <= i < |tags| && 0 <= j < |m.tags| && tags[i] == m.tags[j])
              && (exists i :: 0 <= i < |cfg.split(query)|
                    && exists before, after :: cfg.lower(m.text) == before + cfg.lower(cfg.split(query)[i]) + after))
  {
    MatchMeans(cfg, query, trustedOnly, tags, m);
    RowsAre(q.rows, m);
    hide Ranked, Matching;
    var all := AllMemories(q.rows);
    var ms := Filter(all, Matching(cfg, query, trustedOnly, tags));
    FilterMembers(all, Matching(cfg, query, trustedOnly, tags));
    RankedPermutes(cfg, ms, SqlScores(q, ms), q.drawn);
  }

  lemma RowsAre(rows: seq<Row>, m: Memory)
    ensures m in AllMemories(rows) <==>
      exists i :: 0 <= i < |rows|
        && m == Memory("m" + Dec(rows[i].seqNo), rows[i].text, rows[i].tags, rows[i].trustTier, rows[i].deliveryMode)
  {
    hide Dec;
    var all := AllMemories(rows);
    if m in all {
      var i :| 0 <= i < |all| && all[i] == m;
      assert m == RowMemory()(rows[i]);
    }
    if i :| 0 <= i < |rows|
            && m == Memory("m" + Dec(rows[i].seqNo), rows[i].text, rows[i].tags, rows[i].trustTier, rows[i].deliveryMode) {
      assert all[i] == m;
    }
  }

  lemma MatchMore(cfg: Config, query: string, more: string, trustedOnly: bool, tags: seq<string>, m: Memory)
    requires forall term :: term in cfg.split(query) ==> term in cfg.split(more)
    ensures Matching(cfg, query, trustedOnly, tags)(m) ==> Matching(cfg, more, trustedOnly, tags)(m)
  {
  }

  /** More terms in the query never find fewer memories. */
  lemma MoreTermsFindMore(cfg: Config, s: Local, query: string, more: string, trustedOnly: bool, tags: seq<string>, m: Memory)
    requires forall term :: term in cfg.split(query) ==> term in cfg.split(more)
    ensures var few := LocalStep(cfg, s, Op.Recall(query, trustedOnly, tags)).1;
            var many := LocalStep(cfg, s, Op.Recall(more, trustedOnly, tags)).1;
            && few.Memories? && many.Memories?
            && |few.memories| <= |many.memories| && (m in few.memories ==> m in many.memories)
  {
    var p, q := Matching(cfg, query, trustedOnly, tags), Matching(cfg, more, trustedOnly, tags);
    forall x: Memory
      ensures p(x) ==> q(x)
    {
      MatchMore(cfg, query, more, trustedOnly, tags, x);
    }
    hide Ranked, Matching;
    FilterMore(s.memories, p, q);
    FilterMembers(s.memories, p);
    FilterMembers(s.memories, q);
    RankedPermutes(cfg, Filter(s.memories, p), LocalScores(s, Filter(s.memories, p)), s.drawn);
    RankedPermutes(cfg, Filter(s.memories, q), LocalScores(s, Filter(s.memories, q)), s.drawn);
  }

  lemma SqlMoreTermsFindMore(cfg: Config, q: Sql, query: string, more: string, trustedOnly: bool, tags: seq<string>, m: Memory)
    requires forall term :: term in cfg.split(query) ==> term in cfg.split(more)
    ensures var few := SqlStep(cfg, q, Op.Recall(query, trustedOnly, tags)).1;
            var many := SqlStep(cfg, q, Op.Recall(more, trustedOnly, tags)).1;
            && few.Memories? && many.Memories?
            && |few.memories| <= |many.memories| && (m in few.memories ==> m in many.memories)
  {
    var all, p, p' := AllMemories(q.rows), Matching(cfg, query, trustedOnly, tags), Matching(cfg, more, trustedOnly, tags);
    forall x: Memory
      ensures p(x) ==> p'(x)
    {
      MatchMore(cfg, query, more, trustedOnly, tags, x);
    }
    hide Ranked, Matching, AllMemories;
    FilterMore(all, p, p');
    FilterMembers(all, p);
    FilterMembers(all, p');
    RankedPermutes(cfg, Filter(all, p), SqlScores(q, Filter(all, p)), q.drawn);
    RankedPermutes(cfg, Filter(all, p'), SqlScores(q, Filter(all, p')), q.drawn);
  }

  // ---- in which order ---------------------------------------------------------------------

  /** Without a re-rank: the matches as they were stored. */
  lemma RecallKeepsOrder(cfg: Config, s: Local, query: string, trustedOnly: bool, tags: seq<string>, i: nat, j: nat)
    requires !cfg.rerank
    requires i < j < |LocalStep(cfg, s, Op.Recall(query, trustedOnly, tags)).1.memories|
    ensures var ms := LocalStep(cfg, s, Op.Recall(query, trustedOnly, tags)).1.memories;
            exists k, l :: 0 <= k < l < |s.memories| && s.memories[k] == ms[i] && s.memories[l] == ms[j]
  {
    hide Matching;
    FilterInOrder(s.memories, Matching(cfg, query, trustedOnly, tags), i, j);
  }

  lemma {:induction false} FilterIndex<T>(s: seq<T>, p: T -> bool, j: nat) returns (l: nat)
    requires j < |Filter(s, p)|
    ensures l < |s| && s[l] == Filter(s, p)[j]
  {
    if p(s[0]) && j == 0 {
      l := 0;
    } else {
      l := FilterIndex(s[1..], p, if p(s[0]) then j - 1 else j);
      l := l + 1;
    }
  }

  lemma {:induction false} FilterInOrder<T>(s: seq<T>, p: T -> bool, i: nat, j: nat)
    requires i < j < |Filter(s, p)|
    ensures exists k, l :: 0 <= k < l < |s| && s[k] == Filter(s, p)[i] && s[l] == Filter(s, p)[j]
  {
    var rest := Filter(s[1..], p);
    if p(s[0]) && i == 0 {
      var l := FilterIndex(s[1..], p, j - 1);
      assert s[0] == Filter(s, p)[i] && s[l + 1] == Filter(s, p)[j];
    } else {
      var d := if p(s[0]) then 1 else 0;
      FilterInOrder(s[1..], p, i - d, j - d);
      var k, l :| 0 <= k < l < |s[1..]| && s[1..][k] == rest[i - d] && s[1..][l] == rest[j - d];
      assert s[k + 1] == Filter(s, p)[i] && s[l + 1] == Filter(s, p)[j];
    }
  }

  /** What a lane of feedback counts: one up for each helpful record, one down for each other. */
  lemma {:induction false} ScoreMeans(a: seq<FeedbackRecord>, b: seq<FeedbackRecord>, r: FeedbackRecord)
    ensures NetHelpful([]) == 0 && NetHelpful([r]) == (if r.helpful then 1 else -1)
    ensures NetHelpful(a + b) == NetHelpful(a) + NetHelpful(b)
  {
    assert [r][1..] == [];
    if |a| == 0 {
      assert a + b == b;
    } else {
      assert (a + b)[0] == a[0] && (a + b)[1..] == a[1..] + b;
      ScoreMeans(a[1..], b, r);
    }
  }

  lemma {:induction false} InsertDescends(s: seq<Keyed>, x: Keyed)
    requires forall i, j :: 0 <= i < j < |s| ==> s[i].key >= s[j].key
    ensures forall i, j :: 0 <= i < j < |InsertDesc(s, x)| ==> InsertDesc(s, x)[i].key >= InsertDesc(s, x)[j].key
  {
    if |s| > 0 && s[|s| - 1].key < x.key {
      var init, last := s[..|s| - 1], s[|s| - 1];
      InsertDescends(init, x);
      var r := InsertDesc(init, x);
      InsertPermutes(init, x);
      forall k | 0 <= k < |r|
        ensures r[k].key >= last.key
      {
        assert r[k] in multiset(r);
        assert r[k] in multiset(init) || r[k] == x;
        if r[k] in init {
          var m :| 0 <= m < |init| && init[m] == r[k];
          assert s[m].key >= s[|s| - 1].key;
        }
      }
    }
  }

  lemma {:induction false} SortDescends(xs: seq<Keyed>)
    ensures forall i, j :: 0 <= i < j < |SortDesc(xs)| ==> SortDesc(xs)[i].key >= SortDesc(xs)[j].key
  {
    if |xs| > 0 {
      SortDescends(xs[..|xs| - 1]);
      InsertDescends(SortDesc(xs[..|xs| - 1]), xs[|xs| - 1]);
    }
  }

  /** With a re-rank and no exploration, more net helpful feedback, counted up to three either way, comes first. */
  lemma RecallRanks(cfg: Config, s: Local, query: string, trustedOnly: bool, tags: seq<string>, i: nat, j: nat)
    requires cfg.rerank && cfg.epsilon == 0.0
    requires i < j < |LocalStep(cfg, s, Op.Recall(query, trustedOnly, tags)).1.memories|
    ensures var ms := LocalStep(cfg, s, Op.Recall(query, trustedOnly, tags)).1.memories;
            var a := NetHelpful(if ms[i].id in s.feedback then s.feedback[ms[i].id] else []);
            var b := NetHelpful(if ms[j].id in s.feedback then s.feedback[ms[j].id] else []);
            (if a > 3 then 3 else if a < -3 then -3 else a) >= (if b > 3 then 3 else if b < -3 then -3 else b)
  {
    hide Matching, Filter, SortDesc, NetHelpful;
    var found := Filter(s.memories, Matching(cfg, query, trustedOnly, tags));
    var keyed := WithKeys(cfg, found, LocalScores(s, found), s.drawn);
    SortPermutes(keyed);
    SortDescends(keyed);
    SameMembers(SortDesc(keyed), keyed);
    forall k | 0 <= k < |SortDesc(keyed)|
      ensures SortDesc(keyed)[k].key == Clamp(NetHelpful(Listed(s.feedback, SortDesc(keyed)[k].memory.id)))
    {
      assert SortDesc(keyed)[k] in keyed;
    }
  }

  /** A recall changes nothing but the random stream: one draw for each match, when it re-ranks and explores. */
  lemma RecallDraws(cfg: Config, s: Local, query: string, trustedOnly: bool, tags: seq<string>)
    ensures var (s', out) := LocalStep(cfg, s, Op.Recall(query, trustedOnly, tags));
            && out.Memories? && s'.(drawn := s.drawn) == s
            && s'.drawn == s.drawn + if cfg.rerank && cfg.epsilon != 0.0 then |out.memories| else 0
  {
    hide Matching, Ranked;
    var ms := Filter(s.memories, Matching(cfg, query, trustedOnly, tags));
    RankedPermutes(cfg, ms, LocalScores(s, ms), s.drawn);
  }

  /** A memory that is explored ranks with the best: it gets the top key, whatever its feedback. */
  lemma ExploredRanksFirst(cfg: Config, ms: seq<Memory>, scores: seq<int>, drawn: nat, i: nat)
    requires |scores| == |ms| && i < |ms|
    ensures WithKeys(cfg, ms, scores, drawn)[i].key
      == if cfg.epsilon != 0.0 && cfg.rng(drawn + i) < cfg.epsilon then 3 else scores[i]
  {
  }

  // ---- the other calls --------------------------------------------------------------------

  /** A memory is stored as given, last, exactly under one of the two delivery modes. */
  lemma RememberAnswers(cfg: Config, s: Local, text: string, tags: seq<string>, tier: string, mode: string)
    requires OwnIds(s.memories, s.nextId)
    ensures var (s', out) := LocalStep(cfg, s, Op.Remember(text, tags, tier, mode));
            && (out == ValueError <==> mode != "always" && mode != "on_recall")
            && (out == ValueError ==> s' == s)
            && (out != ValueError ==>
                  out == NewId("m" + Dec(s.nextId)) && s'.nextId == s.nextId + 1 && s'.edges == s.edges && s'.feedback == s.feedback
                  && s'.memories == s.memories + [Memory("m" + Dec(s.nextId), text, tags, tier, mode)])
  {
    hide Dec;
    NextIdIsNew(s.memories, s.nextId);
    PutFresh(s.memories, Memory("m" + Dec(s.nextId), text, tags, tier, mode));
  }

  /** Only memories stored as "always" are pinned. */
  lemma PinnedAnswers(cfg: Config, s: Local, m: Memory)
    ensures var out := LocalStep(cfg, s, LoadPinned).1;
            out.Memories? && (m in out.memories <==> m in s.memories && m.deliveryMode == "always")
  {
    FilterMembers(s.memories, Pinned());
  }

  /** A session start takes the trusted pinned memories, and the first `k` of a recall of trusted ones; `k` is 1 to 100. */
  lemma BootstrapAnswers(cfg: Config, s: Local, query: string, k: int, m: Memory)
    ensures var (s', out) := LocalStep(cfg, s, Op.Bootstrap(query, k));
            var found := LocalStep(cfg, s, Op.Recall(query, true, [])).1;
            && (out.Context? <==> 1 <= k <= 100) && (!out.Context? ==> out == ValueError && s' == s)
            && (out.Context? ==>
                  && (m in out.pinned <==> m in s.memories && m.deliveryMode == "always" && m.trustTier == "trusted")
                  && found.Memories?
                  && out.recalled == found.memories[..if k < |found.memories| then k else |found.memories|])
  {
    FilterMembers(s.memories, Pinned());
    FilterMembers(Filter(s.memories, Pinned()), Trusted());
    hide LocalRecall, Filter;
  }

  /** A promotion makes the memory trusted and changes nothing else; an unknown id is refused. */
  lemma PromoteAnswers(cfg: Config, s: Local, id: string, i: nat)
    requires i < |s.memories|
    ensures var (s', out) := LocalStep(cfg, s, Op.Promote(id));
            && (out == KeyError(id) <==> forall j :: 0 <= j < |s.memories| ==> s.memories[j].id != id)
            && s' == s.(memories := s'.memories) && |s'.memories| == |s.memories|
            && s'.memories[i] == (if s.memories[i].id == id then s.memories[i].(trustTier := "trusted") else s.memories[i])
  {
  }

  /** Feedback goes to the end of the lane of a known memory; an unknown id is refused. */
  lemma FeedbackAnswers(cfg: Config, s: Local, id: string, query: string, helpful: bool, other: string)
    ensures var (s', out) := LocalStep(cfg, s, Op.RecordFeedback(id, query, helpful));
            var was := LocalStep(cfg, s, Op.FeedbackFor(other)).1;
            var now := LocalStep(cfg, s', Op.FeedbackFor(other)).1;
            && (out == KeyError(id) <==> forall j :: 0 <= j < |s.memories| ==> s.memories[j].id != id)
            && s' == s.(feedback := s'.feedback) && was.Feedback? && now.Feedback?
            && now.records == was.records + if out == Done && other == id then [FeedbackRecord(id, query, helpful)] else []
  {
  }

  /** An edge goes to the end of its source's list, known or not. */
  lemma EdgeAnswers(cfg: Config, s: Local, src: string, dst: string, kind: string, other: string)
    ensures var (s', out) := LocalStep(cfg, s, Op.CreateEdge(src, dst, kind));
            var was := LocalStep(cfg, s, Op.EdgesOf(other)).1;
            var now := LocalStep(cfg, s', Op.EdgesOf(other)).1;
            && out == Done && s' == s.(edges := s'.edges) && was.Edges? && now.Edges?
            && now.edges == was.edges + if other == src then [(dst, kind)] else []
  {
  }

  /** Forgetting takes the memory, its lanes and the edges to it, and nothing else; an unknown id is refused. */
  lemma ForgetAnswers(cfg: Config, s: Local, id: string, m: Memory, src: string, e: Edge)
    ensures var (s', out) := LocalStep(cfg, s, Op.Forget(id));
            var known := exists j :: 0 <= j < |s.memories| && s.memories[j].id == id;
            && (out == (if known then Done else KeyError(id))) && (!known ==> s' == s)
            && (known ==>
                  && (m in s'.memories <==> m in s.memories && m.id != id)
                  && (src in s'.edges <==> src in s.edges && src != id)
                  && (src in s'.edges ==> (e in s'.edges[src] <==> e in s.edges[src] && e.0 != id))
                  && (src in s'.feedback <==> src in s.feedback && src != id)
                  && (src in s'.feedback ==> s'.feedback[src] == s.feedback[src]))
  {
    FilterMembers(s.memories, KeepMemory({id}));
    if src in s.edges { FilterMembers(s.edges[src], KeepTarget({id})); }
    hide Filter;
  }

  /** The ids under a tag are those of the memories that have it. */
  lemma TagAnswers(cfg: Config, s: Local, tag: string, id: string)
    ensures var out := LocalStep(cfg, s, Op.IdsWithTag(tag)).1;
            out.Ids? && (id in out.ids <==> exists i, j :: 0 <= i < |s.memories| && 0 <= j < |s.memories[i].tags|
                                              && s.memories[i].tags[j] == tag && s.memories[i].id == id)
  {
    var tagged := Filter(s.memories, Tagged(tag));
    var ids := Map(tagged, IdOf());
    FilterMembers(s.memories, Tagged(tag));
    hide Filter;
    if id in ids {
      var k :| 0 <= k < |ids| && ids[k] == id;
      assert tagged[k] in tagged && tagged[k] in s.memories;
      var i :| 0 <= i < |s.memories| && s.memories[i] == tagged[k];
      var j :| 0 <= j < |tagged[k].tags| && tagged[k].tags[j] == tag;
      assert s.memories[i].tags[j] == tag;
    }
    if i, j :| 0 <= i < |s.memories| && 0 <= j < |s.memories[i].tags| && s.memories[i].tags[j] == tag && s.memories[i].id == id {
      assert s.memories[i] in s.memories && Tagged(tag)(s.memories[i]);
      var k :| 0 <= k < |tagged| && tagged[k] == s.memories[i];
      assert ids[k] == id;
    }
  }
}
