# Kagura agent: a model and its proofs

A Dafny model of the parts of the Kagura agent that are decided by plain logic: its two memory backends, the credential
broker, the registry editor behind `setup`, the erasure cascade and the provenance it follows, the paired experiment and
its gate, the approval protocol and the sessions of the cockpit, the mount check, the egress allowlist, and the wire
protocol of a brain in a container. `dafny verify dfyconfig.toml` checks the whole project.

The code that changes things step by step is modelled by classes and methods with loops. Each method is proved equal to a
function of its inputs or of the state before it, and the properties are proved of those functions, over every input,
every run or every reachable state.

| files | component |
|---|---|
| `MemoryModel`, `LocalMemory`, `SqliteMemory`, `MemoryRefinement`, `MemoryAnswers` | the two memory backends, their agreement, and what each call answers |
| `Provenance`, `Erasure`, `Continuity`, `GroundingHistory`, `CascadeAnswers`, `PromptAnswers` | what a session was shown, and the cascade that reaches it |
| `Lease`, `LeaseInterleaving`, `WriteLock` | budgets, the lease ledger, the broker, its operations interleaved, and the write lock |
| `TomlValue`, `TomlScan`, `TomlBlock`, `SectionEditor`, `TomlUpsert` | the printer, the two scanners, the rendered block and the section editor of `setup` |
| `TomlHeader`, `TomlTables` | what a header means to TOML, and which headers a write leaves |
| `Trials`, `Quantiles`, `GiniCoefficient`, `PairedEffect`, `Metrics`, `Gate`, `EffectAnswers`, `MetricsAnswers`, `GateAnswers` | the statistics of the experiment, and what they are in terms of its records |
| `Experiment`, `Feedback`, `Schedule`, `ExperimentRun`, `ExperimentResult`, `ExperimentReport`, `TrialAnswers` | the experiment runner |
| `Approval`, `ApprovalProtocol`, `OperatorRule`, `Cockpit`, `Commands` | human approval, who may give it, and the session table |
| `SubtreeWalk`, `SubtreeAnswers`, `Egress`, `EgressProxy`, `EgressAnswers` | the mount check and the egress allowlist |
| `Checkpoints`, `JsonCodec`, `BrainSession`, `OutcomeAnswers`, `ContainerBrain` | the session and the brain in a container |
| `Base`, `Text`, `StringOrder`, `NatOrder`, `Permutations`, `Sorting` | shared functions |

## Where the code does less than it says

Each of these is stated as a lemma with the exact condition under which the property holds.

- The durable memory client is described as a drop-in. It raises on an id whose number does not fit a 64-bit rowid, or that
  has more digits than `int()` reads, where the in-process client answers (`MemoryRefinement.DropIn`,
  `MemoryRefinement.NotDropInForHugeIds`).
- A session saves any `turn` found in a brain's state. The container's decoder accepts only an integer, so such a checkpoint
  cannot be resumed in a container (`ContainerBrain.RunInputRoundTrip`).
- `withdraw_pending` works by thread. A late withdrawal of a request that was already claimed denies the next request on the
  thread; it never grants one (`ApprovalProtocol.WithdrawHitsTheThread`, `ApprovalProtocol.LateWithdrawDeniesTheNext`).
- A mint can raise after the provider made the token, for instance when the reply is lost. That token is live, in no ledger,
  and no sweep reaches it; nothing else is ever untracked (`Lease.AcquireTracksExactly`, `Lease.UnreadReplyLeaks`). A
  stateful mint that returns no handle is not recorded either (`Lease.TrackedExactlyWithHandle`).
- `upsert_provider` promises to preserve other sections. It keeps every line before the section and every line from the next
  header outside arrays on, for any file (`SectionEditor.UpsertFrame`); a row of an array is no header
  (`TomlUpsert.ArrayRowsAreKept`). A header behind the section is lost exactly when it, and each header between, is reached
  inside an array that the section opened (`SectionEditor.HeaderIsLost`, `SectionEditor.OpenArrayLosesTheNext`). The block is
  a section of its own, and all others stay as they were, exactly when no array is open where it goes
  (`TomlUpsert.UpsertKeepsOthers`, `SectionEditor.OpenArrayTakesTheBlock`).
- It finds a section by the spelling of its header. The block's header is afterwards the only one that TOML reads under the
  provider's name if and only if no array is open where it goes and every such header before is the one the editor finds
  first (`TomlTables.OneHeaderAfter`): in a file whose headers TOML reads, there was at most one and it spells the path
  searched for (`TomlTables.FoundMeans`). `[providers."aws"]` and `[providers . aws]` are missed and a second header is
  appended (`TomlTables.HandSpelledIsMissed`); `[[providers.aws]]` is found, and a plain table takes its place
  (`TomlTables.ArrayTableIsReplaced`).
- The comparison with the reparsed block is commented as unreachable. It refuses every table that holds a tuple, which
  prints as an array and reads back as a list (`TomlValue.RenderRoundTrip`, `TomlBlock.RenderAccepts`,
  `TomlBlock.TuplesAreRefused`).
- The patterns for provider names and bare keys end in `$`, which also matches before a final newline. A bare name with a
  final newline passes both, and only the reparse of the block refuses it (`TomlBlock.FinalNewline`).
- An erased summary keeps its entry in the provenance log, and as the summary is gone no cascade can start from it
  (`Erasure.SummariesAreOutOfReach`).
- A cascade promises that nothing derived from a memory is left. A session that saves after the cascade deleted its
  checkpoint, or that starts while the cascade is under way, is not reached: a session has a checkpoint exactly when a save of
  it is later than the last delete (`GroundingHistory.CheckpointIsExact`, `GroundingHistory.LateSaveSurvives`,
  `GroundingHistory.LateStartSurvives`).
- An event line over the size cap fails the run it would have completed (`ContainerBrain.ContainerIsTransparent`). A brain
  that raises after its terminal event fails in-process and is completed over the wire; an event of no known kind is ignored
  in-process and ends the run in the container. For any stream the exact condition is in `ContainerBrain.WireDelivers`
  (`ContainerBrain.LateExceptionIsLost`, `ContainerBrain.UnknownEventStops`).

## Assumptions

- Memory: the random streams of the two clients are equal; SQLite's tables are row sequences in rowid order; `str.lower` and
  `str.split` are parameters shared by both clients. The durable store is not changed by another process during a history.
- Memory text is Unicode scalar values: a lone surrogate, on which SQLite raises and the dict does not, is not part of this
  model.
- Leases: a stateful mint that returns names a handle; a clean revoke, or one that fails with 404 or 410, means the token is dead;
  provider names hold no colon, as `membrane/registry.py:159` enforces. A token is a pair of provider and handle, so live
  handles of one provider are distinct. For the exact condition, a token a mint does not name is new to the ledger. Between
  two awaits an operation does not stop; interleaved, a provider does not reissue the handle of a dead token, or a delayed
  forget drops a live one (`LeaseInterleaving.ReissuedHandleIsForgotten`).
- Container: JSON is a value type with string keys, unbounded integers and one NaN. Of its text form only this is assumed, and
  only for the run input and the events at hand: it has no blanks at its ends and reads back as the value, with or without a
  final newline (`JsonCodec.Faithful`; `JsonCodec.FaithfulCodecExists` shows that it can be had for all values).
- Experiment: arithmetic is over the reals; shuffles are arbitrary permutations, seeds and draws arbitrary; each backend call
  answers as any function of all calls before it; tasks hold their gold memory among their candidates, as their decoder checks.
- Approval: one clock reading for each access to the table; the decision event reads it twice, with any delay between.
- Cockpit: events end normally or by an ordinary exception, one at a time, and nothing else deletes checkpoints. The save of
  a checkpoint does not raise: the store is the in-memory one (also for `BrainSession`).
- Egress: on Latin-1 text `str.lower` maps each character by itself; `int()` refuses a colon, and reads the port's numeral back. The
  label round trip assumes nothing about lower-casing.
- Walk: the file system answers the same question the same way during one search.

## Model

| member | source | states |
|---|---|---|
| MemoryRefinement.DropIn | src/kagura_agent/mcp/memory_sqlite.py:62-315 | from two empty stores with equal random streams, every history of calls gives the same ids, lists, orders and errors in both backends if and only if every call fits SQLite (no oversized id, no exhausted rowid) |
| MemoryRefinement.StepAgrees | src/kagura_agent/mcp/memory_sqlite.py:124-315 | from coupled states one call answers alike exactly when it fits, and then the states are coupled again (ids, insertion order, edge journal, feedback journal, draws) |
| MemoryRefinement.RunsAgree | src/kagura_agent/mcp/memory_sqlite.py:124-315 | the same over histories, from any coupled pair of states |
| MemoryRefinement.LookupAgrees | src/kagura_agent/mcp/memory_sqlite.py:100-119 | the keyed lookup finds a row exactly when the dict has the id, and raises exactly on oversized ids |
| MemoryRefinement.NotDropInForHugeIds | src/kagura_agent/mcp/memory_sqlite.py:117-119 | a concrete id on which the two backends differ: one answers False, the other raises |
| SqliteMemory.EdgesAfterForget | src/kagura_agent/mcp/memory_sqlite.py:266-291 | deleting the journal rows that name an id is, seen from each source, dropping that source or filtering its targets |
| MemoryRefinement.LaterIdsAreLarger | src/kagura_agent/mcp/memory_sqlite.py:124-148 | the persisted counter only grows, so an id handed out later has a larger number |
| MemoryRefinement.IdsNeverReused | src/kagura_agent/mcp/memory_sqlite.py:124-148 | no id is handed out twice in a history, whatever is forgotten in between |
| SqliteMemory.SeqOfInverse | src/kagura_agent/mcp/memory_sqlite.py:100-119 | an id parses to n exactly when it is the id of n: no sign, blank, underscore or leading zero aliases a row |
| SqliteMemory.RowidIsShort | src/kagura_agent/mcp/memory_sqlite.py:117 | no number that fits a rowid is refused for its digits |
| MemoryModel.ScanMatches | src/kagura_agent/mcp/memory_cloud.py:198-206 | the recall loop returns exactly the matching memories, in insertion order |
| MemoryModel.SortIsTiers | src/kagura_agent/mcp/memory_cloud.py:207-228 | the stable reverse sort is the tiers of the clamped score from high to low, each in insertion order |
| MemoryModel.SortPermutes | src/kagura_agent/mcp/memory_cloud.py:207-219 | the re-rank neither loses nor invents a match |
| MemoryModel.RerankBoundedAndComplete | src/kagura_agent/mcp/memory_cloud.py:207-234 | with scores clamped to 3 either way the result is the seven tiers, explored memories in the top one, as a permutation of the matches |
| MemoryAnswers.RecallFinds | src/kagura_agent/mcp/memory_cloud.py:191-219 | a stored memory is in the result if and only if it is trusted when only trusted ones are asked for, has one of the tags when tags are given, and its lower-cased text holds some term of the query, lower-cased |
| MemoryAnswers.SqlRecallFinds | src/kagura_agent/mcp/memory_sqlite.py:150-173 | the same for the durable client, over its rows |
| MemoryAnswers.MoreTermsFindMore | src/kagura_agent/mcp/memory_cloud.py:198-206 | a query with more terms never finds fewer memories |
| MemoryAnswers.SqlMoreTermsFindMore | src/kagura_agent/mcp/memory_sqlite.py:150-173 | the same for the durable client |
| MemoryAnswers.RecallKeepsOrder | src/kagura_agent/mcp/memory_cloud.py:198-219 | without a re-rank the matches come in the order they were stored |
| MemoryAnswers.RecallRanks | src/kagura_agent/mcp/memory_cloud.py:207-234 | with a re-rank and no exploration, more net helpful feedback, counted up to three either way, comes first |
| MemoryAnswers.ScoreMeans | src/kagura_agent/mcp/memory_cloud.py:221-234 | a lane counts one up for each helpful record and one down for each other |
| MemoryAnswers.RecallDraws | src/kagura_agent/mcp/memory_cloud.py:207-219 | a recall changes nothing but the random stream, which loses one draw for each match when it re-ranks and explores |
| MemoryAnswers.RememberAnswers | src/kagura_agent/mcp/memory_cloud.py:165-189 | a memory is stored as given, last, exactly under one of the two delivery modes |
| MemoryAnswers.BootstrapAnswers | src/kagura_agent/mcp/memory_cloud.py:236-251 | the trusted memories delivered always, and the first k of a recall of trusted ones, for k from 1 to 100 |
| MemoryAnswers.PromoteAnswers | src/kagura_agent/mcp/memory_cloud.py:259-268 | the named memory becomes trusted and nothing else changes; an unknown id is refused |
| MemoryAnswers.FeedbackAnswers | src/kagura_agent/mcp/memory_cloud.py:270-292 | the record goes to the end of the lane of a known memory and no other lane changes |
| MemoryAnswers.ForgetAnswers | src/kagura_agent/mcp/memory_cloud.py:305-325 | exactly the memory, its lanes and the edges to it are gone |
| MemoryAnswers.TagAnswers | src/kagura_agent/mcp/memory_cloud.py:327-333 | the ids under a tag are those of the memories that have it |
| LocalMemory.LocalMemoryClient.Remember | src/kagura_agent/mcp/memory_cloud.py:165-189 | a valid write gets an id that no stored memory has and goes last; an unknown delivery mode changes nothing |
| LocalMemory.LocalMemoryClient.Recall | src/kagura_agent/mcp/memory_cloud.py:191-219 | matches in insertion order, or stably re-ranked, with one draw per match when exploring |
| LocalMemory.LocalMemoryClient.Bootstrap | src/kagura_agent/mcp/memory_cloud.py:242-251 | trusted pinned memories, and the first k of a trusted recall |
| LocalMemory.LocalMemoryClient.Promote | src/kagura_agent/mcp/memory_cloud.py:259-268 | reading the entry and assigning it again under its key changes the tier of that memory and no other, in place; an unknown id is refused |
| LocalMemory.LocalMemoryClient.RecordFeedback | src/kagura_agent/mcp/memory_cloud.py:270-292 | the record is appended to the lane of a known memory |
| LocalMemory.LocalMemoryClient.Forget | src/kagura_agent/mcp/memory_cloud.py:305-325 | the memory, its lanes and every edge to it are gone, and nothing else |
| LocalMemory.LocalMemoryClient.SweepTargets | src/kagura_agent/mcp/memory_cloud.py:319-325 | the dangling-edge loop filters every source in place |
| LocalMemory.EraseCompose | src/kagura_agent/mcp/memory_cloud.py:305-325 | erasing one set of ids and then another is erasing their union, so the order of deletions cannot matter |
| SqliteMemory.SqliteMemoryClient.Remember | src/kagura_agent/mcp/memory_sqlite.py:124-148 | the memories gain exactly the new one at the end, under an id none of them has; an error when the mode is unknown or the rowids are exhausted |
| SqliteMemory.SqliteMemoryClient.Recall | src/kagura_agent/mcp/memory_sqlite.py:150-173 | the same scan and sort over the rows |
| SqliteMemory.SqliteMemoryClient.Promote | src/kagura_agent/mcp/memory_sqlite.py:219-231 | seen as memories, the keyed update changes the tier of the named one only; it raises exactly on an oversized id and refuses exactly an absent one |
| SqliteMemory.SqliteMemoryClient.RecordFeedback | src/kagura_agent/mcp/memory_sqlite.py:233-246 | the record joins the end of that memory's lane and no other lane changes |
| SqliteMemory.SqliteMemoryClient.Forget | src/kagura_agent/mcp/memory_sqlite.py:266-291 | seen as memories, edges by source and feedback by memory, everything that names the id is gone and nothing else |
| SqliteMemory.SqliteMemoryClient.HasMemory | src/kagura_agent/mcp/memory_sqlite.py:257-264 | whether the memory is stored, unless the id is oversized, and then it raises |
| LeaseInterleaving.LiveTokensAreTracked | src/kagura_agent/membrane/lease.py:165-284 | in every shuffle of any acquires, renewals, releases and sweeps at their awaits, each in its own order and finished or not, each stateful token that is live is in the open leases, or an operation in flight has still to answer for its mint, or a mint made it and did not name it; when all operations are done, only the first and the last |
| LeaseInterleaving.WovenIsLawful | src/kagura_agent/membrane/lease.py:165-284 | that each operation keeps its own order is enough: whatever comes in between, an entry is forgotten only for a token that is dead by then |
| LeaseInterleaving.ProgramIsReady | src/kagura_agent/membrane/lease.py:165-284 | in its own order, each operation forgets an entry only after the token died, for any honest answers of the providers |
| LeaseInterleaving.ProgramIsAnswered | src/kagura_agent/membrane/lease.py:165-226 | each token an operation makes is later recorded or given up by the same operation |
| LeaseInterleaving.NextKeepsSound | src/kagura_agent/membrane/lease.py:165-284 | every lawful event keeps the ledger keyed and loses no live token |
| LeaseInterleaving.AcquireIsItsEvents | src/kagura_agent/membrane/lease.py:165-179 | uninterrupted, the events of an acquire are the acquire |
| LeaseInterleaving.RenewIsItsEvents | src/kagura_agent/membrane/lease.py:181-226 | uninterrupted, the events of a renewal are the renewal: its mint, the record, the revoke of the old token, and the forget |
| LeaseInterleaving.ReleaseIsItsEvents | src/kagura_agent/membrane/lease.py:228-244 | uninterrupted, the events of a release are the release |
| LeaseInterleaving.SweepIsItsEvents | src/kagura_agent/membrane/lease.py:246-284 | uninterrupted, the releases of a sweep, in any order of the ledger, are the sweep |
| LeaseInterleaving.ReissuedHandleIsForgotten | src/kagura_agent/membrane/lease.py:204-226 | a provider that reissues the handle of a dead token lets a delayed forget drop a live one |
| Lease.LiveTokensAreTracked | src/kagura_agent/membrane/lease.py:165-284 | the same when operations run one at a time, over all histories of acquire, renew, release, sweep and checkpoint copies: each stateful token still live is in the open leases, except one that a mint of the run made and did not name |
| Lease.AcquireTracksExactly | src/kagura_agent/membrane/lease.py:165-179 | after an acquire the untracked live tokens are exactly the one its mint made and did not name, if it did |
| Lease.RenewTracksExactly | src/kagura_agent/membrane/lease.py:181-226 | the same after a renewal, and none when the budget refused it |
| Lease.UnreadReplyLeaks | src/kagura_agent/membrane/providers.py:255-258 | a mint whose reply is lost after the provider made the token: the token is live, the ledger is empty, and no sweep reaches it |
| Lease.StepKeepsInv | src/kagura_agent/membrane/lease.py:165-284 | each operation keeps the ledger well keyed and loses no live token but one its own mint does not name |
| Lease.AcquireKeepsInv | src/kagura_agent/membrane/lease.py:165-179 | a failed mint, a locked scope or an unknown provider leaves the ledger unchanged; a success is tracked |
| Lease.RenewKeepsInv | src/kagura_agent/membrane/lease.py:181-226 | a refused budget or a failed mint leaves the ledger unchanged; a success spends exactly the ttl and loses neither token |
| Lease.ReleaseKeepsInv | src/kagura_agent/membrane/lease.py:228-244 | a release that returns means the token is dead |
| Lease.SweepKeepsInv | src/kagura_agent/membrane/lease.py:246-284 | a sweep never drops a token that may be alive |
| Lease.SweepLeavesExactly | src/kagura_agent/membrane/lease.py:246-284 | a sweep leaves exactly the leases of unregistered providers and of revokes that proved nothing; when there are none, nothing is left alive |
| Lease.TrackedExactlyWithHandle | src/kagura_agent/membrane/lease.py:81-83 | a stateful lease just handed out is in the ledger if and only if its mint returned a handle |
| Lease.ChainWithinBudget | src/kagura_agent/membrane/lease.py:34-46 | the time granted along a chain of renewals never sums past the budget |
| Lease.KeysAreDistinct | src/kagura_agent/membrane/lease.py:78-79 | provider and handle can be read back from a ledger key, because provider names hold no colon |
| WriteLock.AcquireAnswers | src/kagura_agent/membrane/lease.py:105-179 | an acquire is write-locked if and only if the scope, stripped and case-folded, starts with `memory:`, is not `memory:read`, and the provider is not both a memory cloud and write-approved; otherwise the lease is what was asked for, with what was minted |
| WriteLock.RenewAnswers | src/kagura_agent/membrane/lease.py:105-226 | the same for a renewal, once the budget has the time; what is granted is spent |
| WriteLock.IssuedUnderLock | src/kagura_agent/membrane/lease.py:105-226 | in every run each lease with a credential was minted by some acquire or renewal, and one for a memory scope other than `memory:read` only at a write-approved memory cloud |
| WriteLock.ReleaseAnswers | src/kagura_agent/membrane/lease.py:228-244 | an entry leaves the ledger exactly when the lease is stateless, or its revoke returned or failed with 404 or 410 |
| WriteLock.SweepAnswers | src/kagura_agent/membrane/lease.py:246-284 | the same for a sweep, for the providers that are registered |
| WriteLock.AssumptionsMean | src/kagura_agent/membrane/lease.py:68-90 | all that is assumed of providers: names without a colon, a handle for each stateful mint that returns, and that a revoke that returns, or fails with 404 or 410, means the token is dead |
| Lease.CredentialBroker.AcquireLease | src/kagura_agent/membrane/lease.py:165-179 | the guards in order, then the mint, then the record |
| Lease.CredentialBroker.RenewLease | src/kagura_agent/membrane/lease.py:181-226 | the new token is recorded before the old one is revoked, and the old entry goes only when it is proved gone |
| Lease.CredentialBroker.ReleaseLease | src/kagura_agent/membrane/lease.py:228-244 | an entry is dropped only after a clean or permanent revoke |
| Lease.CredentialBroker.SweepAll | src/kagura_agent/membrane/lease.py:246-284 | the loop over a copy of the ledger does what one simultaneous sweep does, and one failure never stops it |
| Lease.ContainerEnv | src/kagura_agent/membrane/lease.py:133-163 | exactly the union of what the leases ask for, or the error of the first lease that spoils it: unknown provider, malformed credential, or the variable that an earlier lease sets differently |
| Lease.UnionExtends | src/kagura_agent/membrane/lease.py:148-163 | merging one more lease succeeds exactly when it agrees with what is there |
| WriteLock.ComposableMeans | src/kagura_agent/membrane/lease.py:133-163 | the leases go together exactly when each with a credential resolves and no two set a variable to different values |
| WriteLock.EnvMeans | src/kagura_agent/membrane/lease.py:133-163 | the environment has exactly the variables that some lease sets, with the value it sets |
| TomlUpsert.LastWriteWins | src/kagura_agent/cli/setup.py:212-256 | for any file text and any two rendered blocks of one provider, writing the first and then the second is writing the second alone |
| TomlUpsert.UpsertIdempotent | src/kagura_agent/cli/setup.py:212-256 | writing the same block twice is writing it once |
| TomlUpsert.UpsertKeepsOthers | src/kagura_agent/cli/setup.py:212-256 | for every text and every rendered block: all lines before the provider's section and from the next header outside arrays on are kept, with the blanks and comments before that header; and cut at the headers outside arrays, the file has one section edited or one more and every other as it was, if and only if no array is open where the block goes |
| TomlUpsert.ArrayRowsAreKept | src/kagura_agent/cli/setup.py:228-250 | a section with an array whose last row is `[3]` is replaced as a whole, and the section after it is kept |
| TomlTables.HeadersAfter | src/kagura_agent/cli/setup.py:212-256 | for every text and every rendered block: the headers that TOML reads under the provider's name stay before the block and move with their lines behind it, the one in its place goes, and the block's own is one exactly when no array is open there |
| TomlTables.OneHeaderAfter | src/kagura_agent/cli/setup.py:212-256 | for every text and every rendered block, the block's header is afterwards the only one that reads as the name if and only if no array is open where the block goes and the editor could find what there was |
| TomlTables.FoundMeans | src/kagura_agent/cli/setup.py:221-229 | in a file whose headers outside arrays TOML reads, that means: before the write at most one of them reads as the name, and it is spelled as the path searched for |
| TomlTables.HeadersStartSections | src/kagura_agent/cli/setup.py:101-148 | a line that TOML reads as a header starts a section or is a row of an array, so the count misses none |
| TomlTables.HandSpelledIsMissed | src/kagura_agent/cli/setup.py:221-229 | a bare name in quotes, or with blanks around its dot, is not found, and a second header of that name is appended |
| TomlTables.ArrayTableIsReplaced | src/kagura_agent/cli/setup.py:221-256 | a table of an array under the name is found, and the block takes its place |
| TomlHeader.ReadIsHeader | src/kagura_agent/cli/setup.py:101-148 | every line that the Table, Array of Tables and Keys rules of TOML v1.0.0 read as a header, blanks and comment included, is a header for the scanner, under its key as it is spelled |
| TomlHeader.TargetReads | src/kagura_agent/cli/setup.py:101-148 | such a line found under the path searched for reads as the provider's key, in single or in double brackets |
| TomlHeader.TargetSpelling | src/kagura_agent/cli/setup.py:96-148 | the rendered spelling reads as the provider's key and is found, in single and in double brackets |
| TomlHeader.HandSpelling | src/kagura_agent/cli/setup.py:96-98 | the quoted and the spaced spelling read as the provider's key, and have other paths for the editor |
| TomlUpsert.UpsertProvider | src/kagura_agent/cli/setup.py:212-256 | the index loops compute the editor on lines, joined again |
| TomlUpsert.RenderedIsWellFormed | src/kagura_agent/cli/setup.py:184-209 | every rendered block starts with its header and continues with balanced lines that are not headers |
| TomlBlock.RenderAccepts | src/kagura_agent/cli/setup.py:184-209 | a block is rendered exactly for a provider name of the registry whose header fits on its line, known fields, and printable values that hold no tuple |
| TomlBlock.ReparseOfRendered | src/kagura_agent/cli/setup.py:200-209 | reading the rendered text by the Table, Keys and Key/Value rules of TOML v1.0.0 gives the name back, and the table with tuples as lists, exactly when the header fits on its line; the table is the same exactly when it holds no tuple |
| TomlBlock.FinalNewline | src/kagura_agent/cli/setup.py:96-98 | only the reparse stops a bare name with a final newline |
| TomlBlock.TargetPathInjective | src/kagura_agent/cli/setup.py:221 | different providers never share a section |
| TomlBlock.TuplesAreRefused | src/kagura_agent/cli/setup.py:75-209 | a tuple is printed as an array, and the comparison with the reparsed table refuses the block |
| TomlBlock.FieldNameIsBare | src/kagura_agent/membrane/registry.py:85-126 | every field name the registry knows is a bare key |
| TomlUpsert.TomlIsSound | src/kagura_agent/cli/setup.py:101-181 | for the scanners, a blank or comment line is balanced and no header |
| TomlUpsert.TextLastWriteWins | src/kagura_agent/cli/setup.py:212-256 | last write wins on text, for any sound line reader |
| SectionEditor.LastWriteWinsLines | src/kagura_agent/cli/setup.py:212-256 | last write wins on lines, up to the trailing blanks the text form drops |
| SectionEditor.UpsertFrame | src/kagura_agent/cli/setup.py:228-256 | for any lines and any block, the result is the lines before the section, the block, one blank line where needed, the blanks and comments behind the section, and the file from the next header outside arrays on |
| SectionEditor.HeaderIsLost | src/kagura_agent/cli/setup.py:236-250 | exactly which later headers an edit drops: those for which each header up to them, from the section's own on, is reached inside an array |
| SectionEditor.UpsertSections | src/kagura_agent/cli/setup.py:212-256 | on lines: one section written and every other as it was, if and only if no array is open where the block goes |
| SectionEditor.ArrayRowsLoseNothing | src/kagura_agent/cli/setup.py:236-250 | rows of an array that look like headers are stepped over, for any sound reader |
| SectionEditor.ArrayRowsAreOneSection | src/kagura_agent/cli/setup.py:228-250 | such a file has two sections: the rows of the array belong to the first, and start none |
| SectionEditor.OpenArrayTakesTheBlock | src/kagura_agent/cli/setup.py:228-231 | a file that ends inside an array: the block is appended there |
| SectionEditor.SectionsPartition | src/kagura_agent/cli/setup.py:233-250 | the sections are the file; each but the first has one header outside arrays, at its head, and each but the last closes its arrays |
| SectionEditor.WalkToHeader | src/kagura_agent/cli/setup.py:236-250 | the body walk stops before the trailing blanks and comments of the section, which ends at the first header outside every array, whatever rows its arrays have |
| SectionEditor.OpenArrayLosesTheNext | src/kagura_agent/cli/setup.py:236-250 | a file on which the section after the edited one is lost |
| TomlScan.ComputeBracketDelta | src/kagura_agent/cli/setup.py:151-181 | the quote-aware loop computes the depth change of the recursive scan |
| TomlScan.ComputeHeaderPath | src/kagura_agent/cli/setup.py:101-148 | the header scanner, with its name loop |
| TomlScan.ScanName | src/kagura_agent/cli/setup.py:118-134 | the name loop finds the first closing bracket outside quotes |
| TomlScan.ScanRendered | src/kagura_agent/cli/setup.py:60-78 | any rendered value is balanced for the bracket scanner, whatever its strings contain |
| TomlScan.FieldLineScans | src/kagura_agent/cli/setup.py:60-181 | a rendered key-value line has delta 0, its quotes closed, and is content and not a header |
| TomlScan.HeaderLineIsFound | src/kagura_agent/cli/setup.py:96-148 | a rendered header is one line, found under the path searched for, exactly unless the name is bare but for a final newline |
| TomlValue.RenderRoundTrip | src/kagura_agent/cli/setup.py:60-78 | for every accepted value, decoding the rendered text by the String, Integer, Boolean and Array rules of TOML v1.0.0 gives the value back, with tuples as lists: the same value exactly when it holds no tuple |
| TomlValue.RenderOneLine | src/kagura_agent/cli/setup.py:60-78 | no rendered value contains a newline |
| TomlValue.PassesFuse | src/kagura_agent/cli/setup.py:67-74 | the chain of replacements and the control-character pass is one escape per character |
| Erasure.ForgetCascade | src/kagura_agent/patterns/erasure.py:116-172 | on return the source, the derived memories, the checkpoints and the tiers are gone, everything else is unchanged, and the report lists exactly the erased ids without repeats; a raised delete leaves a partial state |
| Erasure.ForgetSessions | src/kagura_agent/patterns/erasure.py:145-161 | the loop over sessions, up to the first delete that raises |
| Erasure.ForgetTagged | src/kagura_agent/patterns/erasure.py:151-159 | the loop over tagged memories erases each at most once and skips the source |
| Erasure.CascadeCompleteAndFramed | src/kagura_agent/patterns/erasure.py:116-172 | no memory, edge or feedback that names an erased id is left, nor a checkpoint or tier of a consuming session; of the log only the entry of the source is dropped, so the entries of erased summaries stay; nothing else is touched |
| Erasure.CascadeSpares | src/kagura_agent/patterns/erasure.py:145-161 | every memory but the source survives a cascade if and only if it carries no tag `session:` of a session that the log has for the source |
| CascadeAnswers.SummaryOutlives | src/kagura_agent/patterns/erasure.py:145-161 | the summary of a session that did not consume the source outlives the cascade |
| Erasure.SummariesAreOutOfReach | src/kagura_agent/patterns/erasure.py:116-172 | an erased summary keeps its log entry, and no cascade can start from it any more |
| Erasure.RerunCompletes | src/kagura_agent/patterns/erasure.py:116-172 | repeating an interrupted cascade to the end leaves what one clean run leaves |
| Erasure.TaggedIds | src/kagura_agent/mcp/memory_cloud.py:327-333 | in a partly erased store the tag scan finds exactly the derived memories still there |
| Erasure.DerivedAfterErase | src/kagura_agent/patterns/erasure.py:151-159 | what is derived after a partial erasure is what was derived, less what is gone |
| Provenance.ProvenanceLog.RecordGrounding | src/kagura_agent/patterns/erasure.py:53-75 | adds the session to each source and each tier once, in order |
| Provenance.ProvenanceLog.MemoriesFor | src/kagura_agent/patterns/erasure.py:90-94 | exactly the memories whose session set holds the session |
| Provenance.RecordedSessions | src/kagura_agent/patterns/erasure.py:53-56 | after recording, a session is listed for an id exactly when it was, or the id was just recorded for it |
| Provenance.TiersDistinct | src/kagura_agent/patterns/erasure.py:58-75 | a tier is listed once |
| Continuity.ShownIsDeduped | src/kagura_agent/patterns/continuity.py:177-232 | the memories of the rendered lanes, in order, are exactly the deduplicated lanes that provenance records |
| Continuity.DedupExact | src/kagura_agent/patterns/continuity.py:177-185 | deduplication keeps exactly the unseen ids, each once |
| Continuity.DedupeMemories | src/kagura_agent/patterns/continuity.py:177-185 | the nested loops deduplicate the concatenation of the groups |
| Continuity.RenderBootstrapPrompt | src/kagura_agent/patterns/continuity.py:188-232 | the blocks of the non-empty lanes in order, then the task; the bare prompt when there is none |
| PromptAnswers.PromptMeans | src/kagura_agent/patterns/continuity.py:188-232 | the text is the instructions, guardrails, recalled memories, upcoming ones and state, each under its title and only when there is any, and then the task under its own; with none of them it is the task itself |
| Continuity.GroundAndRun | src/kagura_agent/patterns/continuity.py:263-316 | the whole state afterwards: sessions and tiers of what was shown are recorded, the brain gets the grounded prompt and the saved checkpoint, a completed run saves one checkpoint and adds its quarantined summary, and the other memories are unchanged |
| Continuity.ShownAreTrustedAndRecorded | src/kagura_agent/patterns/continuity.py:235-304 | every memory shown to a session is stored, trusted and recorded against that session |
| Continuity.BootstrapIsTrusted | src/kagura_agent/mcp/memory_cloud.py:400-441 | nothing untrusted and nothing unstored reaches a session start |
| CascadeAnswers.RunLeavesSummary | src/kagura_agent/patterns/continuity.py:140-175 | a completed run adds its summary, in quarantine and under its own session's tag, and changes no other memory |
| CascadeAnswers.ShownMeans | src/kagura_agent/patterns/continuity.py:235-304 | a session is shown the trusted memories delivered always and the first five of a recall of trusted ones by the first 1024 characters of its prompt, and nothing else |
| GroundingHistory.LogIsExact | src/kagura_agent/patterns/erasure.py:53-94 | over any interleaving of session starts, saves, summaries, memory calls and the steps of cascades, finished or not, a session is listed for a memory exactly when some start of it was shown that memory and no cascade from it has completed since |
| GroundingHistory.CascadeReachesEveryConsumer | src/kagura_agent/patterns/erasure.py:58-172 | after any such history, a cascade from a memory shown to a session leaves no checkpoint, no tiers and no memory under the tag of that session, whatever came between its start, its save and its summary |
| GroundingHistory.CascadeIsItsSteps | src/kagura_agent/patterns/erasure.py:116-172 | with nothing in between, the steps of a cascade over the sessions in the log are the cascade |
| GroundingHistory.CheckpointIsExact | src/kagura_agent/patterns/erasure.py:145-161 | after any such history a session has a checkpoint exactly when some save of it came after the last delete of its checkpoint by a cascade |
| GroundingHistory.LateSaveSurvives | src/kagura_agent/patterns/continuity.py:263-316 | a cascade between a session's start and its save: the checkpoint comes later, and no cascade from the memory leads to it |
| GroundingHistory.LateStartSurvives | src/kagura_agent/patterns/erasure.py:145-165 | a session that starts and saves while a cascade is under way: its entry in the log goes with the source, and its checkpoint stays |
| GroundingHistory.RunIsItsSteps | src/kagura_agent/patterns/continuity.py:263-316 | a grounded run with nothing in between is its start, and when it completes its save and its summary |
| ExperimentReport.RunExperiment | src/kagura_agent/eval/bootstrap_ab.py:1013-1199 | the close runs exactly once on every exit after prepare succeeded, every exit leaves clean generations, an exception of the close is the one that comes out, the statistics never raise on a finished run, and its report is faithful: every score is the answer of the actor for that arm and trial |
| ExperimentResult.RunGenerations | src/kagura_agent/eval/bootstrap_ab.py:1027-1176 | the loop nest: clean generations, equal journals, each trial once, each write count exact; when it raises, the treatment journal is a prefix of the control one |
| ExperimentResult.NextGeneration | src/kagura_agent/eval/bootstrap_ab.py:1029-1176 | one more generation, scored on the snapshot of the earlier ones and then written, keeps all of it |
| ExperimentResult.PartialIsSafe | src/kagura_agent/eval/bootstrap_ab.py:1149-1178 | however far a generation got, its bootstraps saw only earlier writes and the treatment never ran ahead |
| ExperimentRun.ScoreGeneration | src/kagura_agent/eval/bootstrap_ab.py:1030-1148 | the task and repetition loops build the planned pairs of records and their pending signals, with no write in between |
| ExperimentRun.WriteFeedback | src/kagura_agent/eval/bootstrap_ab.py:1149-1175 | the queue loop makes exactly the due calls and sets exactly the counts; on an exception the calls made are the first of those due |
| Experiment.RunTrial | src/kagura_agent/eval/bootstrap_ab.py:1036-1119 | both bootstraps, all isolation checks, then both actors in the drawn order, each with its own envelope; each record holds what the backend and the actor answered for its own arm |
| TrialAnswers.ComparableMeans | src/kagura_agent/eval/bootstrap_ab.py:968-1100 | a trial counts exactly when each arm was answered as its own agent in its own context, both stamps are the trial's, and the envelopes differ at most in the reinforcement |
| TrialAnswers.ArmsMean | src/kagura_agent/eval/bootstrap_ab.py:1027-1028 | the arms accepted: one of each kind, only the treatment under influence, nothing shared but the snapshot |
| TrialAnswers.RecordMeans | src/kagura_agent/eval/bootstrap_ab.py:1085-1119 | each record holds what the envelope of its own arm says |
| Feedback.WrittenOfPhase | src/kagura_agent/eval/bootstrap_ab.py:1120-1175 | what a generation writes for a trial is, in both journals, its registered candidates recalled by either arm, gold marked helpful, and nothing when an arm was degraded |
| TrialAnswers.WritesMean | src/kagura_agent/eval/bootstrap_ab.py:1120-1175 | a generation writes exactly the candidates of a trial that either arm selected, helpful when it is the gold one, in both journals, and nothing for a degraded trial |
| Feedback.JournalsOfPhase | src/kagura_agent/eval/bootstrap_ab.py:1149-1175 | both arms receive the same feedback sequence |
| Feedback.DrainedIsPhase | src/kagura_agent/eval/bootstrap_ab.py:1120-1175 | draining the queue of indexed signals makes exactly the writes due to the trials, in order |
| Feedback.SettledIsCounted | src/kagura_agent/eval/bootstrap_ab.py:1149-1175 | afterwards each record carries the number of its own writes, 0 when it had none |
| Schedule.PlanMembers | src/kagura_agent/eval/bootstrap_ab.py:1029-1035 | the schedule is exactly the product of generations, tasks and repetitions |
| Schedule.PlanDistinct | src/kagura_agent/eval/bootstrap_ab.py:1029-1035 | with nothing scheduled twice |
| ExperimentReport.RecordCount | src/kagura_agent/eval/bootstrap_ab.py:1029-1176 | a finished run has two records per generation, task and repetition |
| ExperimentReport.EveryTrialOnce | src/kagura_agent/eval/bootstrap_ab.py:1029-1119 | each generation, task and repetition is tried exactly once, as one pair |
| ExperimentReport.EndpointDefined | src/kagura_agent/eval/bootstrap_ab.py:787-808 | the records of a finished run pair every task of each generation, so the primary endpoint never raises |
| ExperimentReport.GateDefined | src/kagura_agent/eval/bootstrap_ab.py:911-935 | they supply both arms of each generation the gate looks up |
| ExperimentReport.ReportedLiftInUnit | src/kagura_agent/eval/bootstrap_ab.py:787-823 | the reported lift and interval lie in [-1, 1], whatever was drawn |
| TrialAnswers.CallsMean | src/kagura_agent/eval/bootstrap_ab.py:1029-1176 | whatever happens, a bootstrap sees every write of the generations before its own and none of its own or a later one, and the treatment's journal never runs ahead |
| TrialAnswers.ReportMeans | src/kagura_agent/eval/bootstrap_ab.py:1178-1199 | a report has the records of the trials in order, each with the number of labels written for it, the effect of the primary generation, and the gate's verdict |
| TrialAnswers.ManifestMeans | src/kagura_agent/eval/bootstrap_ab.py:243-316 | a manifest is refused exactly for too few generations or repetitions, a primary generation that is none, or a threshold out of range |
| TrialAnswers.CorpusMeans | src/kagura_agent/eval/bootstrap_ab.py:1207-1236 | a corpus is refused exactly for fewer than twenty tasks, an id or gold memory used twice, no tail or held-out task, an unknown memory, or one of the checks left out |
| PairedEffect.ComputeEffect | src/kagura_agent/eval/bootstrap_ab.py:787-823 | grouping, sorted tasks, differences, resamples and quantiles; the errors of an unpaired task and of too few tasks |
| PairedEffect.GroupScores | src/kagura_agent/eval/bootstrap_ab.py:794-797 | the grouping loop collects each cell in record order |
| PairedEffect.EffectDefined | src/kagura_agent/eval/bootstrap_ab.py:798-808 | it returns a value exactly when every task of the generation ran in both arms and there are two tasks |
| PairedEffect.EffectBounded | src/kagura_agent/eval/bootstrap_ab.py:787-823 | any bounds on the task differences bound the lift and its interval, and the interval is not inverted, for every resampling |
| PairedEffect.EffectInUnit | src/kagura_agent/eval/bootstrap_ab.py:787-823 | with scores in [0, 1] all three lie in [-1, 1] |
| PairedEffect.EffectAntisymmetric | src/kagura_agent/eval/bootstrap_ab.py:787-823 | exchanging the arms negates the lift and turns the interval round, for every resampling |
| EffectAnswers.LiftMeans | src/kagura_agent/eval/bootstrap_ab.py:787-823 | the lift times the number of tasks is the total of the task differences, one for each task in order, and each is the total over the count of the treatment's scores minus that of the control's |
| EffectAnswers.IntervalMeans | src/kagura_agent/eval/bootstrap_ab.py:787-823 | the interval is the two quantiles, at half of what the confidence leaves on either side, of the averages of the drawn differences in ascending order |
| EffectAnswers.ScoresMean | src/kagura_agent/eval/bootstrap_ab.py:794-797 | the scores of a cell are those of its own records, in order |
| EffectAnswers.SumMeans | src/kagura_agent/eval/bootstrap_ab.py:771-772 | a total adds up over concatenation, and a mean times the count is the total |
| EffectAnswers.EffectPermutes | src/kagura_agent/eval/bootstrap_ab.py:787-823 | the order of the records changes nothing in the effect |
| EffectAnswers.QuantileIsLocal | src/kagura_agent/eval/bootstrap_ab.py:775-784 | a quantile mixes the two samples around its position by the distance |
| EffectAnswers.QuantileIsLinear | src/kagura_agent/eval/bootstrap_ab.py:775-784 | so on evenly spaced samples it is exact |
| Quantiles.QuantileMonotone | src/kagura_agent/eval/bootstrap_ab.py:775-784 | the quantile never falls when the probability grows |
| Quantiles.QuantileBetweenNeighbours | src/kagura_agent/eval/bootstrap_ab.py:775-784 | it lies between the samples on either side of its position |
| Quantiles.QuantileReflects | src/kagura_agent/eval/bootstrap_ab.py:775-784 | on the negated list it is the opposite quantile, negated |
| Quantiles.MeanWithin | src/kagura_agent/eval/bootstrap_ab.py:771-772 | a mean lies between any bounds on its values |
| GiniCoefficient.GiniIsMeanDifference | src/kagura_agent/eval/bootstrap_ab.py:834-840 | the sorted, rank-weighted formula times 2 n total is the sum of all pairwise absolute differences, on every input |
| GiniCoefficient.GiniBounds | src/kagura_agent/eval/bootstrap_ab.py:834-840 | it lies in [0, 1 - 1/n] and is 0 exactly when all counts are equal |
| GiniCoefficient.GiniOrderFree | src/kagura_agent/eval/bootstrap_ab.py:834-840 | it does not depend on the order of the counts |
| Metrics.ComputeMetrics | src/kagura_agent/eval/bootstrap_ab.py:843-891 | one measurement per arm and generation that has a record, in order |
| Metrics.ComputeMinDeclared | src/kagura_agent/eval/bootstrap_ab.py:861-871 | the loop with its early exit finds the smallest declared probability, or that some record declares too little |
| Metrics.MinDeclaredPositive | src/kagura_agent/eval/bootstrap_ab.py:861-871 | the minimum is positive exactly when every record of the group gives each candidate of its task a positive probability |
| Metrics.MetricsCover | src/kagura_agent/eval/bootstrap_ab.py:846-856 | the list has an entry for an arm and generation exactly when a record does, strictly ordered |
| MetricsAnswers.MetricsMean | src/kagura_agent/eval/bootstrap_ab.py:843-891 | each entry measures the records of its arm and generation: each rate times the count is the total of the scores, overall, held out and in the tail; the shares are of degraded records and of memories selected; the least probability is one that is declared |
| MetricsAnswers.MetricsPermute | src/kagura_agent/eval/bootstrap_ab.py:843-891 | the order of the records changes nothing in the metrics |
| Gate.Judge | src/kagura_agent/eval/bootstrap_ab.py:894-967 | the loops return the declarative verdict, and raise exactly when a generation lacks an arm or there are no metrics |
| Gate.DefaultOnMeans | src/kagura_agent/eval/bootstrap_ab.py:894-967 | default-on is allowed exactly when every listed condition holds |
| GateAnswers.DefaultOnAnswers | src/kagura_agent/eval/bootstrap_ab.py:894-967 | in terms of the entries: the interval clears the margin, the feedback is the host's, no entry is degraded too often, the treatment's tail never falls too far below the control's, its choices do not narrow without gain, its held-out score never falls back too far, and each chance is positive |
| GateAnswers.RunMetricsFit | src/kagura_agent/eval/bootstrap_ab.py:843-891 | the metrics of any records with scores in [0, 1] are such a list |
| Gate.FindDecline | src/kagura_agent/eval/bootstrap_ab.py:936-947 | the peak loop flags exactly a score that falls below an earlier one, or below -1, by more than the threshold |
| Gate.GoodhartIsDecline | src/kagura_agent/eval/bootstrap_ab.py:936-947 | for scores not below -1 that is a fall below some earlier generation |
| Gate.TailRegression | src/kagura_agent/eval/bootstrap_ab.py:911-920 | the maximum over generations, floored at 0 |
| Gate.CellMeasures | src/kagura_agent/eval/bootstrap_ab.py:911 | the cell looked up is the measurement of exactly that arm and generation |
| Gate.PositivityMeans | src/kagura_agent/eval/bootstrap_ab.py:951-955 | the positivity flag of a generation says that every treatment record gave every candidate a positive chance |
| ApprovalProtocol.GrantsAreEarned | src/kagura_agent/cockpit/core.py:97-143 | in every interleaving a grant is reached at most once, and only after one authorised claim of that same request within its time to live and, with a memory, after its approved record |
| ApprovalProtocol.EntriesLeaveOnce | src/kagura_agent/cockpit/approval.py:54-116 | every registered entry is in the table or left it exactly once, an entry that expired or was withdrawn is denied, and a thread never has two |
| ApprovalProtocol.TrailIsTrue | src/kagura_agent/cockpit/core.py:297-330 | no approved record is written for a request that was not claimed live by an authorised sender |
| OperatorRule.GrantsComeFromTheOperator | src/kagura_agent/cockpit/transports/base.py:43-63 | in every run the claim behind a grant has exactly the configured operator as its sender, and when one is required there is one and it is not empty |
| OperatorRule.ApprovedRecordsComeFromTheOperator | src/kagura_agent/cockpit/transports/base.py:43-63 | the same for each approved record |
| OperatorRule.DeniedRecordsAreTrue | src/kagura_agent/cockpit/core.py:121-143 | each denied record is of a request that was withdrawn, or claimed and denied |
| OperatorRule.NothingIsGranted | src/kagura_agent/cockpit/transports/base.py:43-63 | when an operator is required and none is set, or an empty one, nothing is ever granted or recorded as approved |
| OperatorRule.OthersDecideNothing | src/kagura_agent/cockpit/core.py:297-330 | a decision from anyone else is no more than a look at the thread |
| OperatorRule.TheOperatorDecides | src/kagura_agent/cockpit/core.py:297-330 | from the operator, or from anyone when none is configured or required, it takes the live request of the thread |
| OperatorRule.LateIsDenied | src/kagura_agent/cockpit/approval.py:108-116 | after its time to live a request is denied at the next touch |
| OperatorRule.RequestAnswers | src/kagura_agent/cockpit/approval.py:54-70 | a request is refused exactly when its thread has one within its time to live |
| ApprovalProtocol.DoneForever | src/kagura_agent/cockpit/approval.py:94-116 | a future resolves at most once, over any continuation of a run |
| ApprovalProtocol.StepKeeps | src/kagura_agent/cockpit/core.py:97-330 | every step of every participant keeps the invariant |
| ApprovalProtocol.WithdrawOnlyDenies | src/kagura_agent/cockpit/core.py:121-143 | withdrawing, and rolling back a failed surface, can only deny |
| ApprovalProtocol.WithdrawHitsTheThread | src/kagura_agent/cockpit/core.py:121-143 | a producer that gave up withdraws: another open request of the thread is denied exactly when it holds the thread, and its own future stays cancelled |
| ApprovalProtocol.LateWithdrawDeniesTheNext | src/kagura_agent/cockpit/core.py:121-143 | a run in which a late withdrawal denies the next request of the thread |
| ApprovalProtocol.ExpiredNeverWedges | src/kagura_agent/cockpit/approval.py:54-70 | an expired request never blocks the next one on its thread |
| ApprovalProtocol.StepsUseTheTable | src/kagura_agent/cockpit/core.py:297-330 | the protocol steps change the table only by its own operations |
| ApprovalProtocol.PromoteEach | src/kagura_agent/cockpit/memory_write.py:128-142 | one failing promotion does not strand the rest, and only what landed is returned |
| Approval.PendingApprovalRegistry.RegisterRequest | src/kagura_agent/cockpit/approval.py:54-70 | an expired entry is purged first; a live one refuses |
| Approval.PendingApprovalRegistry.ClaimEntry | src/kagura_agent/cockpit/approval.py:76-92 | the entry leaves the table, its future untouched, and it was within its time to live |
| Approval.PendingApprovalRegistry.ResolveEntry | src/kagura_agent/cockpit/approval.py:94-106 | the entry leaves the table and its future is decided unless it was done |
| Approval.PendingApprovalRegistry.PurgeIfExpired | src/kagura_agent/cockpit/approval.py:108-116 | an expired entry is denied and removed, at the next touch |
| Approval.SenderlessIsRefused | src/kagura_agent/cockpit/transports/base.py:43-63 | a message without a sender is authorised exactly in the permissive single-user configuration |
| Cockpit.CockpitSafe | src/kagura_agent/cockpit/core.py:162-270 | from an empty registry, after every history, a thread that may be continued has the checkpoint of its latest completed turn, and each continuation started from such a checkpoint while the thread was alive |
| Cockpit.EndedNeedsLaunch | src/kagura_agent/cockpit/core.py:218-360 | a killed, failed or vanished session is continued only after a new launch |
| Cockpit.HandleKeeps | src/kagura_agent/cockpit/core.py:162-270 | each message keeps it, with any outcome of the membrane, the memory, the container and the brain |
| Cockpit.RestartKeeps | src/kagura_agent/cockpit/core.py:176-188 | so does reconciling with the live containers |
| Cockpit.KillEnds | src/kagura_agent/cockpit/core.py:332-360 | an authorised kill ends the session on every path, a refused one changes nothing |
| OperatorRule.OthersKillNothing | src/kagura_agent/cockpit/core.py:332-345 | a kill from anyone who is not the operator changes nothing |
| OperatorRule.TheOperatorKills | src/kagura_agent/cockpit/core.py:332-360 | one from the operator closes the record of its thread and no other |
| Commands.MessageMeans | src/kagura_agent/cockpit/intent.py:25-42 | by the first word of the text, in any case: `/kill` is a kill; `/status`, `/approve` and `/deny` leave the session alone; any other text continues a thread exactly when it is a reply in one whose session is running, and launches one otherwise |
| Commands.CompletedTask | src/kagura_agent/cockpit/core.py:218-270 | a run that completes leaves its checkpoint, and after a launch or in a container its thread running under the container that was started |
| Commands.FailedTask | src/kagura_agent/cockpit/core.py:218-270 | one that does not saves nothing, and in a container closes the record of its thread |
| Commands.RestartMeans | src/kagura_agent/cockpit/registry.py:80-83 | a known container that is gone ends its session at a restart, and no other record changes |
| Cockpit.Handler.HandleTask | src/kagura_agent/cockpit/core.py:218-270 | guards, arming, run, save and close in the order of the handler |
| Cockpit.Handler.HandleKill | src/kagura_agent/cockpit/core.py:332-360 | the kill handler |
| Cockpit.Handler.Handle | src/kagura_agent/cockpit/core.py:162-174 | routing by the structural classification |
| Cockpit.SessionRegistry.SetContainer | src/kagura_agent/cockpit/registry.py:43-61 | in place: capabilities survive, the status is running again |
| Cockpit.SessionRegistry.Reconcile | src/kagura_agent/cockpit/registry.py:80-83 | exactly the records whose container is not live are dead |
| SubtreeWalk.SubtreeSpecialFileReason | src/kagura_agent/membrane/launcher.py:105-158 | the stack search answers None exactly when the tree, not following symlinks, is clean, within the depth cap and within the entry cap; it terminates on any file system, and each refusal names something that is there |
| SubtreeWalk.ScanDirectory | src/kagura_agent/membrane/launcher.py:133-157 | the inner loop accounts for every entry |
| SubtreeWalk.CycleIsRefused | src/kagura_agent/membrane/launcher.py:123-132 | a directory that contains itself is refused |
| SubtreeAnswers.CleanMeans | src/kagura_agent/membrane/launcher.py:105-158 | a tree is clean exactly when no directory reached without following a link is deeper than 64, none raises when listed, and none holds a socket, a device or an entry that cannot be inspected |
| SubtreeAnswers.ReasonsMean | src/kagura_agent/membrane/launcher.py:105-158 | each refusal is true: a directory at level 65 or deeper, more than 50000 entries, a directory that cannot be listed, or the entry it names, of the kind it names |
| SubtreeAnswers.MountMeans | src/kagura_agent/membrane/launcher.py:171-227 | a mount is accepted exactly when its target is absolute and without a colon, its source resolves inside the root and is not dangerous, and its tree is clean and has at most 50000 entries |
| SubtreeWalk.ValidateMounts | src/kagura_agent/membrane/launcher.py:171-227 | all mounts are accepted exactly when each one is, and the path that was verified is the path returned |
| Egress.LabelRoundTrip | src/kagura_agent/membrane/egress.py:73-140 | for every policy that can be constructed, reading its label back gives the same allowlist, whatever lower-casing does |
| Egress.DecideAlike | src/kagura_agent/membrane/egress_proxy.py:23-39 | so launcher and proxy decide alike on every host |
| Egress.BuildAllow | src/kagura_agent/membrane/egress.py:73-117 | the constructor loop collects the normalized entries, or rejects |
| Egress.AllowedAreAccepted | src/kagura_agent/membrane/egress.py:73-117 | each host kept passes every guard, the fixpoint one included |
| EgressAnswers.DecideMeans | src/kagura_agent/membrane/egress.py:40-58 | a host is judged by its name alone: a bracketed address by what is in the brackets, a name with one colon by what is before it, any other text as it is |
| EgressAnswers.PolicyMeans | src/kagura_agent/membrane/egress.py:73-117 | a policy is refused exactly when some entry is blank or stands for no plain name, and otherwise allows those names |
| EgressAnswers.BuiltPolicyAgrees | src/kagura_agent/membrane/egress.py:73-140 | whatever entries a policy was built from, its label gives it back and both ends decide alike |
| EgressAnswers.BuiltPolicyTunnels | deploy/images/egress-proxy/proxy.py:77-105 | a proxy under it dials only hosts that it names |
| EgressProxy.TunnelsOnlyAllowed | deploy/images/egress-proxy/proxy.py:77-105 | whenever the proxy connects, the host it dials is, lower-cased, in the allowlist |
| EgressProxy.AllowedIsReachable | deploy/images/egress-proxy/proxy.py:77-105 | each allowed host in authority-form is accepted and split back to itself |
| EgressProxy.SplitAgrees | deploy/images/egress-proxy/proxy.py:77-88 | the split and the normalization name the same host |
| EgressAnswers.SplitMeans | deploy/images/egress-proxy/proxy.py:77-88 | the proxy dials the host before the first colon, or in the brackets, on the port behind it, or on 443 without one |
| EgressProxy.AllowedShape | src/kagura_agent/membrane/egress.py:40-58 | an allowed host is its own lower case and never has exactly one colon |
| EgressProxy.UnclosedIsRefused | src/kagura_agent/membrane/egress.py:40-58 | an unclosed bracket is never allowed |
| ContainerBrain.ContainerIsTransparent | src/kagura_agent/core/brain/container.py:111-164 | with keepalives anywhere, a run through the wire gives the session the outcome of running the brain directly, exactly when every line is within the cap |
| ContainerBrain.ContainerRunsTheSameTask | src/kagura_agent/core/brain/container.py:60-273 | through both wires, from the host's run input to the lines of the container, for any stream of the brain: the session gets the result it gets in-process, or fails in both, exactly when the run completes over the wire if and only if it completes in-process |
| ContainerBrain.WireDelivers | src/kagura_agent/core/brain/container.py:258-273 | the same for the way back alone, keepalives anywhere: it completes over the wire exactly when a terminal event was sent and every line sent is within the cap |
| ContainerBrain.LateExceptionIsLost | src/kagura_agent/core/session.py:67-106 | a brain that raises after its terminal event fails in-process and is completed over the wire |
| ContainerBrain.UnknownEventStops | src/kagura_agent/core/brain/container.py:258-273 | an event of no known kind is ignored in-process and ends the run in the container |
| JsonCodec.FaithfulCodecExists | src/kagura_agent/core/brain/container.py:60-111 | there is a one-line text form that carries every JSON value, so the faithfulness asked of it can be met |
| ContainerBrain.MalformedLineFails | src/kagura_agent/core/brain/container.py:129-164 | one malformed line anywhere fails the run |
| ContainerBrain.BlankLinesIgnored | src/kagura_agent/core/brain/container.py:129-138 | only the non-blank lines matter |
| ContainerBrain.EventRoundTrip | src/kagura_agent/core/brain/container.py:111-164 | an event decodes to itself exactly when its line is within the cap |
| ContainerBrain.RunInputRoundTrip | src/kagura_agent/core/brain/container.py:60-108 | task and checkpoint survive exactly when the turn is an integer |
| ContainerBrain.NonIntegerTurnIsRefused | src/kagura_agent/core/brain/container.py:92-108 | a checkpoint the session may save and the container refuses |
| ContainerBrain.RunContainer | src/kagura_agent/core/brain/container.py:233-255 | the provider yields what decodes and tears the container down once on every exit |
| ContainerBrain.StreamBrainEvents | src/kagura_agent/core/brain/container.py:258-273 | one line per event up to the first that cannot be encoded or the exception of the brain, and then it raises; with neither it returns |
| BrainSession.Session.Drive | src/kagura_agent/core/session.py:67-106 | the stream is drained, the first terminal event decides, and one checkpoint is saved |
| BrainSession.Session.Resume | src/kagura_agent/core/session.py:61-65 | nothing to resume, or the saved checkpoint is handed to the brain |
| BrainSession.AfterDoneIgnored | src/kagura_agent/core/session.py:67-106 | events after the terminal one change nothing |
| OutcomeAnswers.CompletedMeans | src/kagura_agent/core/session.py:67-106 | a stream without an exception completes at its first terminal event, with its result and state, the turn of the state or 0, and the texts of the messages before it |
| OutcomeAnswers.NotCompletedMeans | src/kagura_agent/core/session.py:67-106 | one with an exception fails, and one without a terminal event ends without a result |

## Left out

- Docker, subprocesses, sockets, Slack, Discord, the SDK, MCP and REST adapters, and the tunnel itself: plumbing without visible semantics.
- SQLite, JSON text and SHA-256 themselves: row sequences, a value type and parameters stand for them.
- Floating-point rounding: `_mean`, `_quantile`, `_gini` and the thresholds are over the reals.
- `_entropy`: it needs logarithms; the gate and the metrics take it as an arbitrary function of the counts.
- The counters `component_failures` and `selection_counts` of a generation's metrics: they are reported and never decide anything.
- `QuarantinedMemoryClient`, `GrantedBroker`, `VerifiedOutcome`, `GraduationEngine` and the other short guards: easy members.
- `doctor`, argument parsing, output glyphs, backend selection, token refresh and retry timing.
- The text of log lines, exceptions and most chat replies: errors are constructors.
- TomlBlock.RenderAccepts: required fields, the shape of references, one reference per secret and the secret scan are not modelled; they only refuse more.
- TOML outside what the renderer writes and the editor reads line by line: multi-line strings, floats, dates, comments inside arrays, underscores and radix prefixes in integers.
- Lease.ContainerEnv: does not model the order of the resulting dict.
- Provenance.ProvenanceLog.MemoriesFor: does not model the order of the returned tuple, because the index is a map.
- LeaseInterleaving.LiveTokensAreTracked: the lease of a renewal or a release is any that a broker could have issued; that it was issued before is not asked.
- TomlTables.OneHeaderAfter: counts headers; a table that has none of its own (`[providers]` with an inline table or dotted keys) is not read.
- Lease.CredentialBroker.SweepAll: does not model the warnings logged for the leases it keeps.
- Erasure.ForgetCascade: one level deep, as the code is; it does not follow what the erased summaries themselves fed.
- TomlBlock.ReparseOfRendered: reads one table with one pair on a line, which is all a rendered block holds; dotted keys under the header, comments and blank lines are refused.
- ApprovalProtocol.PromoteEach: the graduation engine's cooldown and eligibility are not part of this model.
- Cockpit.Handler.HandleTask: does not model grounding and the stored outcome summary, which `Continuity.GroundAndRun` does, nor cancellation.
- Experiment.RunTrial: malformed envelopes are exceptions of the bootstrap call; only the checks that compare envelopes are modelled.
- TrialAnswers.ManifestMeans: the manifest's experiment id, version stamps, recall size and floor bounds are not modelled.
- ExperimentReport.RunExperiment: the corpus checks on categories and on answers from the gold summary are one boolean.
- SubtreeWalk.ValidateMounts: the name-based socket check on the mount source is a parameter; the egress and environment checks of `validate_spec` are left out.
- EgressProxy.TunnelsOnlyAllowed: the lookup of a container's label by source address is not part of this model.
- `run_repl`, `drive_task` as a separate entry, the older `ground_prompt`, and the file and cloud checkpoint stores: `CheckpointStore` is the in-memory one.
