/** The two backends agree: on every call, and over every history of calls. */
module MemoryRefinement {
  import opened Base
  import opened Text
  import opened MemoryModel
  import opened LocalMemory
  import opened SqliteMemory

  // ---- the coupling invariant ------------------------------------------------------

  ghost predicate LanesCoupled(l: Local, q: Sql) {
    && (forall id :: Listed(l.edges, id) == SelectEdges(q.edges, id))
    && (forall id :: Listed(l.feedback, id) == SelectFeedback(q.feedback, id))
  }

  ghost predicate Coupled(l: Local, q: Sql) {
    && RowsOrdered(q)
    && l.memories == AllMemories(q.rows)
    && l.nextId == q.lastSeq + 1
    && l.drawn == q.drawn
    && LanesCoupled(l, q)
  }

  /** The calls on which the durable client does not raise where the in-process one answers. */
  ghost predicate Fits(l: Local, op: Op) {
    match op
    case Remember(_, _, _, mode) => ValidDelivery(mode) ==> l.nextId <= MAX_ROWID
    case Promote(id) => !Oversized(id)
    case RecordFeedback(id, _, _) => !Oversized(id)
    case HasMemory(id) => !Oversized(id)
    case Forget(id) => !Oversized(id)
    case _ => true
  }

  // ---- ids ---------------------------------------------------------------------------

  /** Both lookups find the same memory, and the SQL lookup raises exactly on oversized ids. */
  lemma LookupAgrees(l: Local, q: Sql, id: string)
    requires Coupled(l, q)
    ensures LookupRow(q, id).Raises? <==> Oversized(id)
    ensures LookupRow(q, id).Present? <==> HasId(l.memories, id)
    ensures LookupRow(q, id).Present? ==> id == IdOfSeq(LookupRow(q, id).n)
  {
    LookupIs(q, id);
  }

  // ---- one call -------------------------------------------------------------------------

  lemma RememberAgrees(cfg: Config, l: Local, q: Sql, op: Op)
    requires Coupled(l, q) && op.Remember?
    ensures Agrees(cfg, l, q, op)
  {
    hide Listed, SelectEdges, SelectFeedback, AllMemories, Put, HasId, Dec, RowsOrdered;
    if ValidDelivery(op.deliveryMode) && l.nextId <= MAX_ROWID {
      var row := Row(l.nextId, op.text, op.tags, op.trustTier, op.deliveryMode);
      NextRowIsFresh(q);
      PutFresh(l.memories, RowMemory()(row));
      RowsAfterInsert(q, row);
    }
  }

  lemma RecallAgrees(cfg: Config, l: Local, q: Sql, query: string, trustedOnly: bool, tags: seq<string>)
    requires Coupled(l, q)
    ensures var (l', ms) := LocalRecall(cfg, l, query, trustedOnly, tags);
            var (q', ms') := SqlRecall(cfg, q, query, trustedOnly, tags);
            ms == ms' && l'.(drawn := l.drawn) == l && q'.(drawn := q.drawn) == q && l'.drawn == q'.drawn
  {
    var ms := Filter(l.memories, Matching(cfg, query, trustedOnly, tags));
    assert LocalScores(l, ms) == SqlScores(q, ms);
  }

  lemma RecallOpsAgree(cfg: Config, l: Local, q: Sql, op: Op)
    requires Coupled(l, q) && (op.Recall? || op.Bootstrap?)
    ensures Agrees(cfg, l, q, op)
  {
    hide LocalRecall, SqlRecall, Listed, SelectEdges, SelectFeedback, AllMemories, Filter;
    match op
    case Recall(query, trustedOnly, tags) => RecallAgrees(cfg, l, q, query, trustedOnly, tags);
    case Bootstrap(query, k) => RecallAgrees(cfg, l, q, query, true, []);
  }

  lemma CreateEdgeAgrees(l: Local, q: Sql, src: string, dst: string, kind: string)
    requires LanesCoupled(l, q)
    ensures LanesCoupled(l.(edges := Append(l.edges, src, (dst, kind))), q.(edges := q.edges + [EdgeRow(src, dst, kind)]))
  {
    var row := EdgeRow(src, dst, kind);
    forall id
      ensures Listed(Append(l.edges, src, (dst, kind)), id) == SelectEdges(q.edges + [row], id)
    {
      assert Listed(l.edges, id) == SelectEdges(q.edges, id);
      FilterSnoc(q.edges, row, FromSrc(id));
      MapConcat(Filter(q.edges, FromSrc(id)), [row], RowEdge());
      assert Map([row], RowEdge()) == [(dst, kind)];
    }
  }

  lemma FeedbackAgrees(l: Local, q: Sql, id: string, query: string, helpful: bool)
    requires LanesCoupled(l, q)
    ensures LanesCoupled(
      l.(feedback := Append(l.feedback, id, FeedbackRecord(id, query, helpful))),
      q.(feedback := q.feedback + [FeedbackRow(id, query, if helpful then 1 else 0)]))
  {
    var row := FeedbackRow(id, query, if helpful then 1 else 0);
    FeedbackAppended(q.feedback, id, query, helpful);
    forall x
      ensures Listed(Append(l.feedback, id, FeedbackRecord(id, query, helpful)), x) == SelectFeedback(q.feedback + [row], x)
    {
      assert Listed(l.feedback, x) == SelectFeedback(q.feedback, x);
    }
  }

  lemma RecordFeedbackAgrees(cfg: Config, l: Local, q: Sql, id: string, query: string, helpful: bool)
    requires Coupled(l, q)
    ensures Agrees(cfg, l, q, Op.RecordFeedback(id, query, helpful))
  {
    hide Listed, SelectEdges, SelectFeedback, SeqOf, HasId, HasRow, Oversized, AllMemories, Append;
    LookupAgrees(l, q, id);
    FeedbackAgrees(l, q, id, query, helpful);
  }

  lemma PromoteCoupled(l: Local, q: Sql, n: nat)
    requires Coupled(l, q)
    ensures Coupled(l.(memories := Map(l.memories, Promoted(IdOfSeq(n)))), q.(rows := Map(q.rows, PromotedRow(n))))
  {
    PromotedMemories(q.rows, n);
    RowsAfterPromote(q, n);
  }

  lemma PromoteAgrees(cfg: Config, l: Local, q: Sql, id: string)
    requires Coupled(l, q)
    ensures Agrees(cfg, l, q, Op.Promote(id))
  {
    hide Listed, SelectEdges, SelectFeedback, SeqOf, HasId, HasRow, Oversized, AllMemories;
    LookupAgrees(l, q, id);
    if LookupRow(q, id).Present? {
      PromoteCoupled(l, q, LookupRow(q, id).n);
    }
  }

  lemma LanesAfterForget(l: Local, q: Sql, id: string, rows: seq<Row>)
    requires LanesCoupled(l, q)
    ensures LanesCoupled(Erase(l, {id}), q.(
      rows := rows, edges := Filter(q.edges, KeepEdgeRow(id)), feedback := Filter(q.feedback, KeepFeedbackRow(id))))
  {
    var l' := Erase(l, {id});
    forall x
      ensures Listed(l'.edges, x) == SelectEdges(Filter(q.edges, KeepEdgeRow(id)), x)
    {
      EdgesAfterForget(q.edges, id, x);
      assert Listed(l.edges, x) == SelectEdges(q.edges, x);
    }
    forall x
      ensures Listed(l'.feedback, x) == SelectFeedback(Filter(q.feedback, KeepFeedbackRow(id)), x)
    {
      FeedbackAfterForget(q.feedback, id, x);
      assert Listed(l.feedback, x) == SelectFeedback(q.feedback, x);
    }
  }

  lemma ForgetCoupled(l: Local, q: Sql, n: nat)
    requires Coupled(l, q)
    ensures var id := IdOfSeq(n);
            Coupled(Erase(l, {id}), q.(
              rows := Filter(q.rows, KeepRow(n)),
              edges := Filter(q.edges, KeepEdgeRow(id)),
              feedback := Filter(q.feedback, KeepFeedbackRow(id))))
  {
    var id, rows := IdOfSeq(n), Filter(q.rows, KeepRow(n));
    RowsAfterForget(q, n);
    MemoriesAfterForget(q.rows, n);
    LanesAfterForget(l, q, id, rows);
    var l', q' := Erase(l, {id}), q.(
      rows := rows, edges := Filter(q.edges, KeepEdgeRow(id)), feedback := Filter(q.feedback, KeepFeedbackRow(id)));
    assert LanesCoupled(l', q') && RowsOrdered(q');
  }

  lemma ForgetAgrees(cfg: Config, l: Local, q: Sql, id: string)
    requires Coupled(l, q)
    ensures Agrees(cfg, l, q, Op.Forget(id))
  {
    hide Listed, SelectEdges, SelectFeedback, SeqOf, HasId, HasRow, Oversized, AllMemories, Erase, Filter;
    LookupAgrees(l, q, id);
    if LookupRow(q, id).Present? {
      ForgetCoupled(l, q, LookupRow(q, id).n);
    }
  }

  /** The answers are equal exactly when the call fits, and a call that fits keeps the coupling. */
  ghost predicate Agrees(cfg: Config, l: Local, q: Sql, op: Op) {
    var (l', out) := LocalStep(cfg, l, op);
    var (q', out') := SqlStep(cfg, q, op);
    (out == out' <==> Fits(l, op)) && (Fits(l, op) ==> Coupled(l', q'))
  }

  lemma ReadsAgree(cfg: Config, l: Local, q: Sql, op: Op)
    requires Coupled(l, q)
    requires op.LoadPinned? || op.EdgesOf? || op.FeedbackFor? || op.HasMemory? || op.IdsWithTag?
    ensures Agrees(cfg, l, q, op)
  {
    match op
    case EdgesOf(id) => assert Listed(l.edges, id) == SelectEdges(q.edges, id);
    case FeedbackFor(id) => assert Listed(l.feedback, id) == SelectFeedback(q.feedback, id);
    case HasMemory(id) => LookupAgrees(l, q, id);
    case _ =>
  }

  /** Drop-in on one call. */
  lemma StepAgrees(cfg: Config, l: Local, q: Sql, op: Op)
    requires Coupled(l, q)
    ensures Agrees(cfg, l, q, op)
  {
    match op
    case Remember(_, _, _, _) => RememberAgrees(cfg, l, q, op);
    case Recall(_, _, _) => RecallOpsAgree(cfg, l, q, op);
    case Bootstrap(_, _) => RecallOpsAgree(cfg, l, q, op);
    case CreateEdge(src, dst, kind) => CreateEdgeAgrees(l, q, src, dst, kind);
    case Promote(id) => PromoteAgrees(cfg, l, q, id);
    case RecordFeedback(id, query, helpful) => RecordFeedbackAgrees(cfg, l, q, id, query, helpful);
    case Forget(id) => ForgetAgrees(cfg, l, q, id);
    case _ => ReadsAgree(cfg, l, q, op);
  }

  // ---- every history -----------------------------------------------------------------------

  ghost function LocalRun(cfg: Config, l: Local, ops: seq<Op>): (outs: seq<Out>)
    ensures |outs| == |ops|
    decreases |ops|
  {
    if |ops| == 0 then [] else
      var (l', out) := LocalStep(cfg, l, ops[0]);
      [out] + LocalRun(cfg, l', ops[1..])
  }

  ghost function SqlRun(cfg: Config, q: Sql, ops: seq<Op>): (outs: seq<Out>)
    ensures |outs| == |ops|
    decreases |ops|
  {
    if |ops| == 0 then [] else
      var (q', out) := SqlStep(cfg, q, ops[0]);
      [out] + SqlRun(cfg, q', ops[1..])
  }

  ghost predicate AllFit(cfg: Config, l: Local, ops: seq<Op>)
    decreases |ops|
  {
    |ops| == 0 || (Fits(l, ops[0]) && AllFit(cfg, LocalStep(cfg, l, ops[0]).0, ops[1..]))
  }

  lemma {:induction false} RunsAgree(cfg: Config, l: Local, q: Sql, ops: seq<Op>)
    requires Coupled(l, q)
    decreases |ops|
    ensures LocalRun(cfg, l, ops) == SqlRun(cfg, q, ops) <==> AllFit(cfg, l, ops)
  {
    if |ops| != 0 {
      var l', q' := LocalStep(cfg, l, ops[0]).0, SqlStep(cfg, q, ops[0]).0;
      StepAgrees(cfg, l, q, ops[0]);
      if Fits(l, ops[0]) {
        RunsAgree(cfg, l', q', ops[1..]);
        assert LocalRun(cfg, l, ops)[1..] == LocalRun(cfg, l', ops[1..]);
        assert SqlRun(cfg, q, ops)[1..] == SqlRun(cfg, q', ops[1..]);
      } else {
        assert LocalRun(cfg, l, ops)[0] != SqlRun(cfg, q, ops)[0];
      }
    }
  }

  /**
   * The drop-in claim, from two empty stores with equal random streams: every history of calls
   * gives the same answers, lists, orders and errors exactly when every call fits.
   */
  lemma DropIn(cfg: Config, ops: seq<Op>)
    ensures LocalRun(cfg, EmptyLocal, ops) == SqlRun(cfg, EmptySql, ops) <==> AllFit(cfg, EmptyLocal, ops)
  {
    RunsAgree(cfg, EmptyLocal, EmptySql, ops);
  }

  lemma HugeIdRaises(q: Sql)
    ensures LookupRow(q, IdOfSeq(MAX_ROWID + 1)).Raises?
  {
    hide Dec;
    var n := MAX_ROWID + 1;
    PowersOfTen();
    DecLength(n, 20);
    SeqOfInverse(IdOfSeq(n), n);
  }

  /** Not a drop-in for every id: the id of the first number past a rowid raises in one backend only. */
  lemma NotDropInForHugeIds(cfg: Config)
    ensures var ops := [Op.HasMemory(IdOfSeq(MAX_ROWID + 1))];
            LocalRun(cfg, EmptyLocal, ops) == [Flag(false)] && SqlRun(cfg, EmptySql, ops) == [StorageError]
  {
    var n := MAX_ROWID + 1;
    HugeIdRaises(EmptySql);
    hide SeqOf, IdOfSeq;
    var ops := [Op.HasMemory(IdOfSeq(n))];
    assert ops[1..] == [];
    assert SqlStep(cfg, EmptySql, ops[0]) == (EmptySql, StorageError);
  }

  // ---- ids are never reused -------------------------------------------------------------------

  /** The state of the durable client after `ops`. */
  ghost function SqlAfter(cfg: Config, q: Sql, ops: seq<Op>): Sql
    decreases |ops|
  {
    if |ops| == 0 then q else SqlAfter(cfg, SqlStep(cfg, q, ops[0]).0, ops[1..])
  }

  lemma CounterStep(cfg: Config, q: Sql, op: Op)
    ensures var (q', out) := SqlStep(cfg, q, op);
            && q.lastSeq <= q'.lastSeq
            && (out.NewId? ==> q.lastSeq < q'.lastSeq && out == NewId(IdOfSeq(q'.lastSeq)))
  {
  }

  /** A reopened file keeps its counter, so later ids come after every earlier one. */
  lemma {:induction false} LaterIdsAreLarger(cfg: Config, q: Sql, ops: seq<Op>, k: nat)
    decreases |ops|
    requires k < |ops| && SqlRun(cfg, q, ops)[k].NewId?
    ensures exists n :: q.lastSeq < n <= SqlAfter(cfg, q, ops).lastSeq && SqlRun(cfg, q, ops)[k] == NewId(IdOfSeq(n))
  {
    hide SqlStep, IdOfSeq;
    CounterStep(cfg, q, ops[0]);
    var q' := SqlStep(cfg, q, ops[0]).0;
    CounterGrows(cfg, q', ops[1..]);
    if k == 0 {
      assert SqlRun(cfg, q, ops)[0] == NewId(IdOfSeq(q'.lastSeq));
    } else {
      assert SqlRun(cfg, q, ops)[k] == SqlRun(cfg, q', ops[1..])[k - 1];
      LaterIdsAreLarger(cfg, q', ops[1..], k - 1);
    }
  }

  lemma {:induction false} CounterGrows(cfg: Config, q: Sql, ops: seq<Op>)
    decreases |ops|
    ensures q.lastSeq <= SqlAfter(cfg, q, ops).lastSeq
  {
    if |ops| != 0 {
      hide SqlStep;
      CounterStep(cfg, q, ops[0]);
      CounterGrows(cfg, SqlStep(cfg, q, ops[0]).0, ops[1..]);
    }
  }

  /** Within and across processes, no id is handed out twice, whatever is forgotten in between. */
  lemma {:induction false} IdsNeverReused(cfg: Config, q: Sql, ops: seq<Op>, j: nat, k: nat)
    decreases |ops|
    requires j < k < |ops|
    requires SqlRun(cfg, q, ops)[j].NewId? && SqlRun(cfg, q, ops)[k].NewId?
    ensures SqlRun(cfg, q, ops)[j] != SqlRun(cfg, q, ops)[k]
  {
    hide SqlStep;
    CounterStep(cfg, q, ops[0]);
    var q' := SqlStep(cfg, q, ops[0]).0;
    CounterGrows(cfg, q', ops[1..]);
    if j == 0 {
      assert SqlRun(cfg, q, ops)[k] == SqlRun(cfg, q', ops[1..])[k - 1];
      LaterIdsAreLarger(cfg, q', ops[1..], k - 1);
      var n :| q'.lastSeq < n && SqlRun(cfg, q, ops)[k] == NewId(IdOfSeq(n));
      if IdOfSeq(n) == IdOfSeq(q'.lastSeq) {
        assert IdOfSeq(n)[1..] == Dec(n) && IdOfSeq(q'.lastSeq)[1..] == Dec(q'.lastSeq);
        DecInjective(n, q'.lastSeq);
      }
    } else {
      assert forall i :: 1 <= i < |ops| ==> SqlRun(cfg, q, ops)[i] == SqlRun(cfg, q', ops[1..])[i - 1];
      IdsNeverReused(cfg, q', ops[1..], j - 1, k - 1);
    }
  }
}
