/** The file-backed backend: three tables, and ids computed from the autoincrement key. */
module SqliteMemory {
  import opened Base
  import opened Text
  import opened MemoryModel
  import opened LocalMemory

  /** The largest key SQLite can bind or assign. */
  const MAX_ROWID: nat := 9223372036854775807

  datatype Row = Row(seqNo: nat, text: string, tags: seq<string>, trustTier: string, deliveryMode: string)
  datatype EdgeRow = EdgeRow(src: string, dst: string, kind: string)
  datatype FeedbackRow = FeedbackRow(memoryId: string, query: string, helpful: int)

  /** Tables in rowid order; `lastSeq` is the persisted autoincrement counter. */
  datatype Sql = Sql(rows: seq<Row>, edges: seq<EdgeRow>, feedback: seq<FeedbackRow>, lastSeq: nat, drawn: nat)

  const EmptySql := Sql([], [], [], 0, 0)

  // ---- ids -----------------------------------------------------------------------

  function IdOfSeq(n: nat): string {
    "m" + Dec(n)
  }

  datatype Parsed = NotAnId | SeqNo(n: nat) | TooManyDigits

  function SeqOf(id: string): Parsed {
    if id == "" || id[0] != 'm' then NotAnId
    else
      var tail := id[1..];
      if tail == "" || !AllDigits(tail) then NotAnId
      else if |tail| > MAX_INT_DIGITS then TooManyDigits
      else
        var n := DecValue(tail);
        if IdOfSeq(n) == id then SeqNo(n) else NotAnId
  }

  function Pow10(k: nat): (p: nat)
    ensures p >= 1
  {
    if k == 0 then 1 else 10 * Pow10(k - 1)
  }

  lemma {:induction false} DecLength(n: nat, k: nat)
    requires k >= 1 && n < Pow10(k)
    ensures |Dec(n)| <= k
  {
    if n >= 10 {
      assert k > 1 by { assert Pow10(1) == 10 * Pow10(0); }
      assert Pow10(k) == 10 * Pow10(k - 1);
      DecLength(n / 10, k - 1);
    }
  }

  lemma PowersOfTen()
    ensures Pow10(20) == 100000000000000000000
  {
    assert Pow10(5) == 100000;
    assert Pow10(10) == 100000 * Pow10(5);
    assert Pow10(15) == 100000 * Pow10(10);
    assert Pow10(20) == 100000 * Pow10(15);
  }

  lemma RowidIsShort(n: nat)
    requires n <= MAX_ROWID
    ensures |Dec(n)| <= MAX_INT_DIGITS
  {
    PowersOfTen();
    DecLength(n, 20);
  }

  /** `_seq_of` and `m{seq}` are exact inverses: an id parses to `n` just when it is `n`'s id. */
  lemma SeqOfInverse(id: string, n: nat)
    requires |Dec(n)| <= MAX_INT_DIGITS
    ensures SeqOf(id) == SeqNo(n) <==> id == IdOfSeq(n)
  {
    DecValueOfDec(n);
    if id == IdOfSeq(n) {
      assert id[1..] == Dec(n);
    }
  }

  /**
   * The ids on which SQLite's client raises instead of answering: canonical ids whose number does
   * not fit a rowid, and `m` followed by more digits than `int()` accepts.
   */
  predicate Oversized(id: string) {
    && id != "" && id[0] == 'm' && id[1..] != "" && AllDigits(id[1..])
    && (|id[1..]| > MAX_INT_DIGITS || (IdOfSeq(DecValue(id[1..])) == id && DecValue(id[1..]) > MAX_ROWID))
  }

  // ---- queries ---------------------------------------------------------------------

  function RowMemory(): Row -> Memory {
    (r: Row) => Memory(IdOfSeq(r.seqNo), r.text, r.tags, r.trustTier, r.deliveryMode)
  }

  function AllMemories(rows: seq<Row>): seq<Memory> {
    Map(rows, RowMemory())
  }

  function FromSrc(src: string): EdgeRow -> bool {
    (r: EdgeRow) => r.src == src
  }

  function RowEdge(): EdgeRow -> Edge {
    (r: EdgeRow) => (r.dst, r.kind)
  }

  function SelectEdges(rows: seq<EdgeRow>, src: string): seq<Edge> {
    Map(Filter(rows, FromSrc(src)), RowEdge())
  }

  function ForMemory(id: string): FeedbackRow -> bool {
    (r: FeedbackRow) => r.memoryId == id
  }

  function RowRecord(): FeedbackRow -> FeedbackRecord {
    (r: FeedbackRow) => FeedbackRecord(r.memoryId, r.query, r.helpful != 0)
  }

  function SelectFeedback(rows: seq<FeedbackRow>, id: string): seq<FeedbackRecord> {
    Map(Filter(rows, ForMemory(id)), RowRecord())
  }

  predicate HasRow(rows: seq<Row>, n: nat) {
    exists i | 0 <= i < |rows| :: rows[i].seqNo == n
  }

  datatype Lookup = Absent | Present(n: nat) | Raises

  /** `_seq_of` followed by the keyed query; an unbindable key raises. */
  function LookupRow(q: Sql, id: string): Lookup {
    match SeqOf(id)
    case NotAnId => Absent
    case TooManyDigits => Raises
    case SeqNo(n) => if n > MAX_ROWID then Raises else if HasRow(q.rows, n) then Present(n) else Absent
  }

  function KeepRow(n: nat): Row -> bool {
    (r: Row) => r.seqNo != n
  }

  function KeepEdgeRow(id: string): EdgeRow -> bool {
    (r: EdgeRow) => !(r.src == id || r.dst == id)
  }

  function KeepFeedbackRow(id: string): FeedbackRow -> bool {
    (r: FeedbackRow) => r.memoryId != id
  }

  function PromotedRow(n: nat): Row -> Row {
    (r: Row) => if r.seqNo == n then r.(trustTier := TRUSTED_TIER) else r
  }

  function SqlScores(q: Sql, ms: seq<Memory>): (r: seq<int>)
    ensures |r| == |ms|
  {
    seq(|ms|, i requires 0 <= i < |ms| => Clamp(NetHelpful(SelectFeedback(q.feedback, ms[i].id))))
  }

  function SqlRecall(cfg: Config, q: Sql, query: string, trustedOnly: bool, tags: seq<string>): (Sql, seq<Memory>) {
    var ms := Filter(AllMemories(q.rows), Matching(cfg, query, trustedOnly, tags));
    (q.(drawn := q.drawn + Draws(cfg, |ms|)), Ranked(cfg, ms, SqlScores(q, ms), q.drawn))
  }

  function SqlStep(cfg: Config, q: Sql, op: Op): (Sql, Out) {
    match op
    case Remember(text, tags, tier, mode) =>
      if !ValidDelivery(mode) then (q, ValueError)
      else if q.lastSeq >= MAX_ROWID then (q, StorageError)
      else
        var n := q.lastSeq + 1;
        (q.(rows := q.rows + [Row(n, text, tags, tier, mode)], lastSeq := n), NewId(IdOfSeq(n)))
    case Recall(query, trustedOnly, tags) =>
      var (q', ms) := SqlRecall(cfg, q, query, trustedOnly, tags);
      (q', Memories(ms))
    case LoadPinned => (q, Memories(Filter(AllMemories(q.rows), Pinned())))
    case Bootstrap(query, k) =>
      if !(1 <= k <= 100) then (q, ValueError) else
        var (q', ms) := SqlRecall(cfg, q, query, true, []);
        (q', Context(Filter(Filter(AllMemories(q.rows), Pinned()), Trusted()), Take(ms, k)))
    case CreateEdge(src, dst, kind) => (q.(edges := q.edges + [EdgeRow(src, dst, kind)]), Done)
    case EdgesOf(id) => (q, Edges(SelectEdges(q.edges, id)))
    case Promote(id) =>
      (match LookupRow(q, id)
       case Raises => (q, StorageError)
       case Absent => (q, KeyError(id))
       case Present(n) => (q.(rows := Map(q.rows, PromotedRow(n))), Done))
    case RecordFeedback(id, query, helpful) =>
      (match LookupRow(q, id)
       case Raises => (q, StorageError)
       case Absent => (q, KeyError(id))
       case Present(_) => (q.(feedback := q.feedback + [FeedbackRow(id, query, if helpful then 1 else 0)]), Done))
    case FeedbackFor(id) => (q, Feedback(SelectFeedback(q.feedback, id)))
    case HasMemory(id) =>
      (match LookupRow(q, id)
       case Raises => (q, StorageError)
       case Absent => (q, Flag(false))
       case Present(_) => (q, Flag(true)))
    case Forget(id) =>
      (match LookupRow(q, id)
       case Raises => (q, StorageError)
       case Absent => (q, KeyError(id))
       case Present(n) =>
         (q.(rows := Filter(q.rows, KeepRow(n)),
             edges := Filter(q.edges, KeepEdgeRow(id)),
             feedback := Filter(q.feedback, KeepFeedbackRow(id))), Done))
    case IdsWithTag(tag) => (q, Ids(Map(Filter(AllMemories(q.rows), Tagged(tag)), IdOf())))
  }

  // ---- the rows as memories -----------------------------------------------------------

  ghost predicate RowsOrdered(q: Sql) {
    && q.lastSeq <= MAX_ROWID
    && (forall i :: 0 <= i < |q.rows| ==> 1 <= q.rows[i].seqNo <= q.lastSeq)
    && Increasing(q.rows)
  }

  ghost predicate Increasing(rows: seq<Row>) {
    forall i, j :: 0 <= i < j < |rows| ==> rows[i].seqNo < rows[j].seqNo
  }

  /** Keyed by number or keyed by id, an update or delete touches the same rows. */
  lemma SameRows(n: nat, r: Row)
    ensures r.seqNo == n <==> RowMemory()(r).id == IdOfSeq(n)
  {
    if IdOfSeq(r.seqNo) == IdOfSeq(n) {
      assert IdOfSeq(n)[1..] == Dec(n) && IdOfSeq(r.seqNo)[1..] == Dec(r.seqNo);
      DecInjective(r.seqNo, n);
    }
  }

  /** The keyed lookup raises exactly on oversized ids, and otherwise finds exactly the ids of the stored memories. */
  lemma LookupIs(q: Sql, id: string)
    requires RowsOrdered(q)
    ensures LookupRow(q, id).Raises? <==> Oversized(id)
    ensures LookupRow(q, id).Present? <==> HasId(AllMemories(q.rows), id)
    ensures LookupRow(q, id).Present? ==> id == IdOfSeq(LookupRow(q, id).n)
  {
    var ms := AllMemories(q.rows);
    if i :| 0 <= i < |ms| && ms[i].id == id {
      var n := q.rows[i].seqNo;
      RowidIsShort(n);
      SeqOfInverse(id, n);
    }
    match SeqOf(id)
    case NotAnId =>
    case TooManyDigits =>
    case SeqNo(n) =>
      if n <= MAX_ROWID {
        RowidIsShort(n);
        SeqOfInverse(id, n);
        DecValueOfDec(n);
        assert id[1..] == Dec(n);
        if i :| 0 <= i < |q.rows| && q.rows[i].seqNo == n {
          assert ms[i].id == id;
        }
      }
  }

  lemma NextRowIsFresh(q: Sql)
    requires RowsOrdered(q)
    ensures !HasId(AllMemories(q.rows), IdOfSeq(q.lastSeq + 1))
  {
    var ms := AllMemories(q.rows);
    if i :| 0 <= i < |ms| && ms[i].id == IdOfSeq(q.lastSeq + 1) {
      SameRows(q.lastSeq + 1, q.rows[i]);
      assert false;
    }
  }

  lemma RowsAfterInsert(q: Sql, row: Row)
    requires RowsOrdered(q) && row.seqNo == q.lastSeq + 1 <= MAX_ROWID
    ensures RowsOrdered(q.(rows := q.rows + [row], lastSeq := row.seqNo))
    ensures AllMemories(q.rows + [row]) == AllMemories(q.rows) + [RowMemory()(row)]
  {
    MapConcat(q.rows, [row], RowMemory());
    assert Map([row], RowMemory()) == [RowMemory()(row)];
  }

  lemma PromotedMemories(rows: seq<Row>, n: nat)
    ensures Map(AllMemories(rows), Promoted(IdOfSeq(n))) == AllMemories(Map(rows, PromotedRow(n)))
  {
    forall i | 0 <= i < |rows|
      ensures Promoted(IdOfSeq(n))(RowMemory()(rows[i])) == RowMemory()(PromotedRow(n)(rows[i]))
    {
      SameRows(n, rows[i]);
    }
  }

  lemma RowsAfterPromote(q: Sql, n: nat)
    requires RowsOrdered(q)
    ensures RowsOrdered(q.(rows := Map(q.rows, PromotedRow(n))))
  {
    var rows := Map(q.rows, PromotedRow(n));
    assert forall i :: 0 <= i < |rows| ==> rows[i].seqNo == q.rows[i].seqNo;
  }

  /** The journal without rows naming `id`, read for one source. */
  lemma EdgesAfterForget(rows: seq<EdgeRow>, id: string, src: string)
    ensures SelectEdges(Filter(rows, KeepEdgeRow(id)), src)
      == if src == id then [] else Filter(SelectEdges(rows, src), KeepTarget({id}))
  {
    var keep, from := KeepEdgeRow(id), FromSrc(src);
    FilterFilter(rows, keep, from);
    if src == id {
      FilterNone(rows, Both(keep, from));
    } else {
      FilterMap(Filter(rows, from), RowEdge(), KeepTarget({id}));
      FilterFilter(rows, from, After(RowEdge(), KeepTarget({id})));
      FilterSame(rows, Both(keep, from), Both(from, After(RowEdge(), KeepTarget({id}))));
    }
  }

  lemma FeedbackAfterForget(rows: seq<FeedbackRow>, id: string, x: string)
    ensures SelectFeedback(Filter(rows, KeepFeedbackRow(id)), x) == if x == id then [] else SelectFeedback(rows, x)
  {
    FilterFilter(rows, KeepFeedbackRow(id), ForMemory(x));
    if x == id {
      FilterNone(rows, Both(KeepFeedbackRow(id), ForMemory(x)));
    } else {
      FilterSame(rows, Both(KeepFeedbackRow(id), ForMemory(x)), ForMemory(x));
    }
  }

  lemma {:induction false} SubOrdered(rows: seq<Row>, p: Row -> bool)
    requires Increasing(rows)
    ensures Increasing(Filter(rows, p))
  {
    if |rows| != 0 {
      var rest := Filter(rows[1..], p);
      SubOrdered(rows[1..], p);
      forall j | 0 <= j < |rest|
        ensures rows[0].seqNo < rest[j].seqNo
      {
        assert rest[j] in rest;
        FilterMembers(rows[1..], p);
        var k :| 0 <= k < |rows[1..]| && rows[1..][k] == rest[j];
        assert rows[k + 1] == rest[j];
      }
    }
  }

  lemma MemoriesAfterForget(rows: seq<Row>, n: nat)
    ensures Filter(AllMemories(rows), KeepMemory({IdOfSeq(n)})) == AllMemories(Filter(rows, KeepRow(n)))
  {
    var keep := KeepMemory({IdOfSeq(n)});
    FilterMap(rows, RowMemory(), keep);
    forall r | r in rows
      ensures KeepRow(n)(r) == After(RowMemory(), keep)(r)
    {
      SameRows(n, r);
    }
    FilterSame(rows, KeepRow(n), After(RowMemory(), keep));
  }

  lemma RowsAfterForget(q: Sql, n: nat)
    requires RowsOrdered(q)
    ensures RowsOrdered(q.(rows := Filter(q.rows, KeepRow(n))))
  {
    var rows := Filter(q.rows, KeepRow(n));
    SubOrdered(q.rows, KeepRow(n));
    FilterMembers(q.rows, KeepRow(n));
    assert forall i :: 0 <= i < |rows| ==> rows[i] in rows && rows[i] in q.rows;
  }

  /** What a keyed call answers: it raises on an oversized id, and otherwise only asks whether the memory is there. */
  function Answer(id: string, present: bool, yes: Out, no: Out): Out {
    if Oversized(id) then StorageError else if present then yes else no
  }

  lemma FeedbackAppended(rows: seq<FeedbackRow>, id: string, query: string, helpful: bool)
    ensures var row := FeedbackRow(id, query, if helpful then 1 else 0);
            forall x :: SelectFeedback(rows + [row], x)
              == SelectFeedback(rows, x) + if x == id then [FeedbackRecord(id, query, helpful)] else []
    ensures forall x :: SelectFeedback(rows, x) == SelectFeedback(rows, x) + []
  {
    var row := FeedbackRow(id, query, if helpful then 1 else 0);
    forall x
      ensures SelectFeedback(rows + [row], x) == SelectFeedback(rows, x) + if x == id then [FeedbackRecord(id, query, helpful)] else []
    {
      FilterSnoc(rows, row, ForMemory(x));
      MapConcat(Filter(rows, ForMemory(x)), [row], RowRecord());
      assert Map([row], RowRecord()) == [FeedbackRecord(id, query, helpful)];
    }
  }

  /** The memory, its edges either way and its feedback are gone, and nothing else is. */
  ghost predicate ErasedOnly(q: Sql, q': Sql, id: string) {
    && AllMemories(q'.rows) == Filter(AllMemories(q.rows), KeepMemory({id}))
    && (forall src :: SelectEdges(q'.edges, src) == if src == id then [] else Filter(SelectEdges(q.edges, src), KeepTarget({id})))
    && (forall x :: SelectFeedback(q'.feedback, x) == if x == id then [] else SelectFeedback(q.feedback, x))
    && q'.lastSeq == q.lastSeq && q'.drawn == q.drawn
  }

  lemma ForgetErases(q: Sql, n: nat)
    ensures var id := IdOfSeq(n);
            ErasedOnly(q, q.(rows := Filter(q.rows, KeepRow(n)), edges := Filter(q.edges, KeepEdgeRow(id)),
                             feedback := Filter(q.feedback, KeepFeedbackRow(id))), id)
  {
    var id := IdOfSeq(n);
    MemoriesAfterForget(q.rows, n);
    forall src
      ensures SelectEdges(Filter(q.edges, KeepEdgeRow(id)), src)
        == if src == id then [] else Filter(SelectEdges(q.edges, src), KeepTarget({id}))
    {
      EdgesAfterForget(q.edges, id, src);
    }
    forall x
      ensures SelectFeedback(Filter(q.feedback, KeepFeedbackRow(id)), x) == if x == id then [] else SelectFeedback(q.feedback, x)
    {
      FeedbackAfterForget(q.feedback, id, x);
    }
  }

  // ---- the class -------------------------------------------------------------------

  class SqliteMemoryClient {
    const cfg: Config
    var rows: seq<Row>
    var edges: seq<EdgeRow>
    var feedback: seq<FeedbackRow>
    var lastSeq: nat
    var drawn: nat

    function State(): Sql
      reads this
    {
      Sql(rows, edges, feedback, lastSeq, drawn)
    }

    /** Opening a file: `stored` is whatever an earlier process left, with a fresh random stream. */
    constructor (cfg: Config, stored: Sql)
      ensures this.cfg == cfg && State() == stored.(drawn := 0)
    {
      this.cfg := cfg;
      rows, edges, feedback, lastSeq, drawn := stored.rows, stored.edges, stored.feedback, stored.lastSeq, 0;
    }

    method Remember(text: string, tags: seq<string>, tier: string, mode: string) returns (out: Out)
      modifies this`rows, this`lastSeq
      ensures (State(), out) == SqlStep(cfg, old(State()), Op.Remember(text, tags, tier, mode))
      ensures out.NewId? <==> ValidDelivery(mode) && old(lastSeq) < MAX_ROWID
      ensures old(RowsOrdered(State())) ==> RowsOrdered(State())
      ensures old(RowsOrdered(State())) && out.NewId? ==>
        && !HasId(old(AllMemories(rows)), out.id)
        && AllMemories(rows) == old(AllMemories(rows)) + [Memory(out.id, text, tags, tier, mode)]
    {
      hide AllMemories, HasId, IdOfSeq;
      if !ValidDelivery(mode) {
        return ValueError;
      }
      if lastSeq >= MAX_ROWID {
        return StorageError;
      }
      if RowsOrdered(State()) {
        NextRowIsFresh(State());
        RowsAfterInsert(State(), Row(lastSeq + 1, text, tags, tier, mode));
      }
      lastSeq := lastSeq + 1;
      rows := rows + [Row(lastSeq, text, tags, tier, mode)];
      out := NewId(IdOfSeq(lastSeq));
    }

    method Recall(query: string, trustedOnly: bool, tags: seq<string>) returns (results: seq<Memory>)
      modifies this`drawn
      ensures (State(), results) == SqlRecall(cfg, old(State()), query, trustedOnly, tags)
    {
      results := ScanMatches(cfg, AllMemories(rows), query, trustedOnly, tags);
      if cfg.rerank {
        var keyed := WithKeys(cfg, results, SqlScores(State(), results), drawn);
        drawn := drawn + Draws(cfg, |results|);
        results := Map(SortDesc(keyed), MemoryOf());
      }
    }

    method LoadPinned() returns (out: Out)
      ensures (State(), out) == SqlStep(cfg, State(), Op.LoadPinned)
    {
      out := Memories(Filter(AllMemories(rows), Pinned()));
    }

    method Bootstrap(query: string, recallK: int) returns (out: Out)
      modifies this`drawn
      ensures (State(), out) == SqlStep(cfg, old(State()), Op.Bootstrap(query, recallK))
    {
      if !(1 <= recallK <= 100) {
        return ValueError;
      }
      var pinned := Filter(Filter(AllMemories(rows), Pinned()), Trusted());
      var ms := Recall(query, true, []);
      out := Context(pinned, Take(ms, recallK));
    }

    method CreateEdge(src: string, dst: string, kind: string)
      modifies this`edges
      ensures (State(), Done) == SqlStep(cfg, old(State()), Op.CreateEdge(src, dst, kind))
    {
      edges := edges + [EdgeRow(src, dst, kind)];
    }

    method EdgesOf(src: string) returns (r: seq<Edge>)
      ensures (State(), Edges(r)) == SqlStep(cfg, State(), Op.EdgesOf(src))
    {
      r := SelectEdges(edges, src);
    }

    method Promote(id: string) returns (out: Out)
      modifies this`rows
      ensures (State(), out) == SqlStep(cfg, old(State()), Op.Promote(id))
      ensures old(RowsOrdered(State())) ==>
        && RowsOrdered(State())
        && out == Answer(id, HasId(old(AllMemories(rows)), id), Done, KeyError(id))
        && AllMemories(rows) == if out == Done then Map(old(AllMemories(rows)), Promoted(id)) else old(AllMemories(rows))
    {
      hide AllMemories, HasId, SeqOf, HasRow, Oversized, RowsOrdered;
      if RowsOrdered(State()) {
        LookupIs(State(), id);
        if LookupRow(State(), id).Present? {
          PromotedMemories(rows, LookupRow(State(), id).n);
          RowsAfterPromote(State(), LookupRow(State(), id).n);
        }
      }
      match LookupRow(State(), id) {
        case Raises => out := StorageError;
        case Absent => out := KeyError(id);
        case Present(n) =>
          rows := Map(rows, PromotedRow(n));
          out := Done;
      }
    }

    method RecordFeedback(id: string, query: string, helpful: bool) returns (out: Out)
      modifies this`feedback
      ensures (State(), out) == SqlStep(cfg, old(State()), Op.RecordFeedback(id, query, helpful))
      ensures RowsOrdered(State()) ==> out == Answer(id, HasId(AllMemories(rows), id), Done, KeyError(id))
      ensures var added := if out == Done then [FeedbackRecord(id, query, helpful)] else [];
              forall x :: SelectFeedback(feedback, x) == old(SelectFeedback(feedback, x)) + if x == id then added else []
    {
      hide AllMemories, HasId, SeqOf, HasRow, Oversized, SelectFeedback;
      if RowsOrdered(State()) { LookupIs(State(), id); }
      FeedbackAppended(feedback, id, query, helpful);
      match LookupRow(State(), id) {
        case Raises => out := StorageError;
        case Absent => out := KeyError(id);
        case Present(_) =>
          feedback := feedback + [FeedbackRow(id, query, if helpful then 1 else 0)];
          out := Done;
      }
    }

    method FeedbackFor(id: string) returns (r: seq<FeedbackRecord>)
      ensures (State(), Feedback(r)) == SqlStep(cfg, State(), Op.FeedbackFor(id))
    {
      r := SelectFeedback(feedback, id);
    }

    method HasMemory(id: string) returns (out: Out)
      ensures (State(), out) == SqlStep(cfg, State(), Op.HasMemory(id))
      ensures RowsOrdered(State()) ==> out == Answer(id, HasId(AllMemories(rows), id), Flag(true), Flag(false))
    {
      hide AllMemories, HasId, SeqOf, HasRow, Oversized;
      if RowsOrdered(State()) { LookupIs(State(), id); }
      match LookupRow(State(), id) {
        case Raises => out := StorageError;
        case Absent => out := Flag(false);
        case Present(_) => out := Flag(true);
      }
    }

    /** The three deletes of one transaction. */
    method Forget(id: string) returns (out: Out)
      modifies this`rows, this`edges, this`feedback
      ensures (State(), out) == SqlStep(cfg, old(State()), Op.Forget(id))
      ensures old(RowsOrdered(State())) ==>
        && RowsOrdered(State())
        && out == Answer(id, HasId(old(AllMemories(rows)), id), Done, KeyError(id))
        && (if out == Done then ErasedOnly(old(State()), State(), id) else State() == old(State()))
    {
      hide Filter, SeqOf, HasRow, AllMemories, HasId, Oversized, Increasing, ErasedOnly;
      if RowsOrdered(State()) {
        LookupIs(State(), id);
        if LookupRow(State(), id).Present? {
          RowsAfterForget(State(), LookupRow(State(), id).n);
          ForgetErases(State(), LookupRow(State(), id).n);
        }
      }
      match LookupRow(State(), id) {
        case Raises => out := StorageError;
        case Absent => out := KeyError(id);
        case Present(n) =>
          rows := Filter(rows, KeepRow(n));
          edges := Filter(edges, KeepEdgeRow(id));
          feedback := Filter(feedback, KeepFeedbackRow(id));
          out := Done;
      }
    }

    method IdsWithTag(tag: string) returns (ids: seq<string>)
      ensures (State(), Ids(ids)) == SqlStep(cfg, State(), Op.IdsWithTag(tag))
    {
      ids := Map(Filter(AllMemories(rows), Tagged(tag)), IdOf());
    }
  }
}
