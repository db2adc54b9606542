# Ryu, modelled and proved in Dafny

Ryu is an embedded graph database. This project models its most intricate algorithms and proves
what they are for:

- **Plan rewriting.** `Plans.dfy` gives logical plans a meaning: the sequence of rows they produce,
  with three-valued predicates; `RowAlgebra.dfy` holds the laws of selections, products and joins.
  `FilterPushDown.dfy` is the filter push-down, and `PushDownRows.dfy` proves what it keeps, through
  splitting predicates over cross products, turning equalities into join keys, primary-key
  look-ups, zone-map hints and constant filters; `PushDownExact.dfy` proves what it yields for every
  plan, and so exactly when it is right where products are optional; `PushDownPlaces.dfy` proves where
  every predicate goes. `SemiMask.dfy` proves that the node-ID masks hash joins pass to the scans of
  their other side are invisible in the result, and `SemiMaskPlaces.dfy` which joins get them.
- **The versioned catalog.** `Catalogs.dfy` models `CatalogSet` and the undo records that commit and
  roll it back; `CatalogHistory.dfy`, `CatalogSteps.dfy`, `CatalogCommits.dfy` and `CatalogRuns.dfy`
  prove snapshot isolation, rollback, look-up by OID and checkpoints for every run of readers and a
  writer; `SnapshotCatalog.dfy` proves that every run refines a catalog without versions, which hands
  out whole copies; `CatalogExamples.dfy` holds the runs in which the catalog falls short.
- **Nested values.** `Vectors.dfy` is the vector layout of lists and structs. `IntegerText.dfy` and
  `ListText.dfy` are the printer, the splitter and what a text is cast to, `ListCast.dfy` the two-pass
  cast; `ListSpelling.dfy` says which texts are ways to write a value and proves that exactly these are
  cast to it, `ListRoundTrip.dfy` the round trip of lists through text; `NestedOrder.dfy` the order of
  nested values; `NestedHash.dfy` their chunked hash.
- **Bits and bytes.** `NullMasks.dfy` proves word-level copying against per-bit copying, `Md5Core.dfy`,
  `BlockDigest.dfy` and `Md5.dfy` streaming MD5 against RFC 1321, which `Rfc1321.dfy` writes down with
  tables of its own and `Md5Example.dfy` follows through a digest of its test suite, `Find.dfy` the
  windowed substring searches against the definition of the first occurrence.
- **Vectorised evaluation.** `Slices.dfy` and `CaseEvaluation.dfy` prove the slicing of lists for
  lambdas and CASE against their meaning row by row.
- **Smaller cores.** `ClientTransactions.dfy` is the transaction state of a connection, `Sessions.dfy`
  what its user sees of it, `OverflowBuffer.dfy` the bump allocator of long values, `Decimals.dfy`
  decimal arithmetic within the storage types.

Objects whose methods change fields are classes, loops are methods with invariants, and each is
proved against a specification; whole runs are functions over steps, or methods over sequences of
calls, with the invariants every step keeps. `dafny verify dfyconfig.toml` checks everything.

What comes from outside is a parameter: table contents, zone maps, semi-mask admission, scalar
hashes, the outcome of binding and running a statement, other connections, memory exhaustion.

## Where the code does less than it promises

Each has a concrete counterexample, the exact condition under which the promise is kept, or both:

- The filter push-down treats an optional product, which an uncorrelated OPTIONAL MATCH becomes, like
  any other product. `MATCH (a:A) OPTIONAL MATCH (b:B) MATCH (c:C) WHERE b.x IS NULL` then returns rows
  it should not (`OptionalMatch.PushBelowOptionalAddsRows`). For every plan in which no product that
  becomes a join has a mark, the result has the rows of the plan whose optional build sides, where the
  predicates pushed into them leave nothing, are empty from the start
  (`PushDownExact.PushDownYields`), and so is right if and only if these two plans select the same rows
  (`PushDownExact.PushDownExactly`). Where filters and products lead to such a side the plan selects
  nothing, and the result is right if and only if the other plan selects nothing
  (`PushDownExact.EmptiedExactly`); the query above is such a plan. For a single product
  `PushDownRows.ProductExactly` spells the condition out, marks included (`PushDownRows.MarkLost`:
  becoming a join costs a product its mark and nothing else). `PushDownRows.NothingPushedKept` gives
  plans that need no look at the rows.
- A failed rename leaves a tombstone without an undo record, and a later alter then loses the table
  (`CatalogExamples.FailedRenameLosesTable`). A rename fails exactly when another name that is live is
  the new one (`CatalogSteps.RenameExactly`); the ALTER operator looks for the new name beforehand
  (`src/processor/operator/ddl/alter.cpp:150`), which is what the runs assume.
- Looking a table up by OID compares with the newest version. The writer always finds what it should
  (`CatalogRuns.WriterFindsByOID`); a reader does if and only if no name it sees was given to another
  entry since it started (`CatalogRuns.ReaderFindsByOID`, `CatalogExamples.ReusedNameConfusesReader`).
- A checkpoint looks at the kind of the newest version and saves the committed one. It saves the
  persisted part of the committed view if and only if these are of the same kind
  (`CatalogRuns.CheckpointPersistsExactly`, `CatalogExamples.DropBaresFunction`); without a writer they
  always are (`CatalogRuns.CheckpointSavesCommitted`). A checkpoint waits until no transaction is active
  (`src/transaction/transaction_manager.cpp:164-176`), so only another caller of `serialize` could meet
  a running writer.
- `copyNullMask` is documented to return whether a set bit was written; for inverted copies of one
  to three bits it reports the source bits (`NullMasks.ReportsWritten`, and at single bits
  `NullMasks.ClearBitMisreported` and `NullMasks.SetBitMisreported`), so such a copy can break the
  promise of a mask to hold no nulls (`NullMasks.NullMask.CopyFromNullBits`), as can the union of masks
  (`NullMasks.NullMask.OrWith`); `NullMasks.BrokenPromises` breaks both.
- Copies of at most three bits address single bits by 32-bit numbers; from position 2^32 on they are
  exact if and only if the bits at the wrapped places happen to agree (`NullMasks.FewExactly`,
  `NullMasks.HighBitMisplaced`).
- The list `[NULL]` prints as `[]` and comes back empty; the round trip is exact if and only if no
  list is exactly `[NULL]` (`ListRoundTrip.RoundTripExact`, `ListRoundTrip.LoneNullIsLost`).
- NULL structs compare equal but are hashed by what is left in their fields
  (`NestedHash.NullStructsHashApart`); `NestedHash.HashesByValueExactly` says which rows hash by their
  value whatever the hash function.
- A semi mask that reaches a scan below an operator such as LIMIT changes the result
  (`SemiMask.MaskBelowLimitChangesRows`); `SemiMask.SafeToMask` says where masks are invisible.
- A `BEGIN TRANSACTION` that is refused because another connection is writing leaves its connection
  in manual mode without a transaction (`ClientTransactions.RefusedBeginSticks`). This is the only
  way to get there (`ClientTransactions.RunsAreSound`, `ClientTransactions.RunsAreSoundExactly`);
  without assertions compiled in, a later BEGIN that is granted or a failed checkpoint is the only way
  out (`ClientTransactions.RunsEndSoundExactly`).
- A request for memory whose size added to the offset in the last block does not fit 64 bits is
  handed bytes beyond the block, and the next request bytes in use (`OverflowBuffer.WrappingRequest`);
  all others are served soundly (`OverflowBuffer.InMemOverflowBuffer.AllocateSpace`).
- The type of a sum of decimals has a digit more than the operands, but behind the decimal point: 9 + 9
  in one digit each is refused (`Decimals.NinePlusNine`). A sum is refused if and only if it has more
  integer digits than the operands (`Decimals.SumExactly`, and for types that are full already
  `Decimals.FullSumExactly`); with the scale of the operands it never would be (`Decimals.CarryFits`).

## Model

| member | source | states |
|---|---|---|
| `Plans.EvaluableColumns` | src/planner/operator/schema.cpp:79-95 | a predicate that a schema can evaluate reads only columns of the schema |
| `Plans.EvalExprAgree` | src/planner/operator/schema.cpp:79-95 | a predicate has the same three-valued result on rows that agree on the columns it reads |
| `FilterPushDown.AddHolds` | src/optimizer/filter_push_down_optimizer.cpp:277-283 | a predicate joins the set, equalities apart, and none is lost or doubled |
| `FilterPushDown.FilterPushDownOptimizer.Rewrite` | src/optimizer/filter_push_down_optimizer.cpp:22-24 | leaves in place the plan `Visited` describes: the root stays, whatever would replace it is dropped |
| `FilterPushDown.FilterPushDownOptimizer.VisitOperator` | src/optimizer/filter_push_down_optimizer.cpp:26-48 | returns the plan `PushDown` describes and leaves the operator as `Visited` describes; the lemmas of `PushDownRows` are about these two |
| `FilterPushDown.FilterPushDownOptimizer.VisitChildren` | src/optimizer/filter_push_down_optimizer.cpp:50-59 | each child starts a new push-down and all pending predicates are stacked on top |
| `FilterPushDown.FilterPushDownOptimizer.VisitFilterReplace` | src/optimizer/filter_push_down_optimizer.cpp:61-76 | a false or NULL literal gives the empty result and leaves the filter alone, a true one disappears, any other condition becomes pending |
| `FilterPushDown.FilterPushDownOptimizer.VisitCrossProductReplace` | src/optimizer/filter_push_down_optimizer.cpp:78-136 | the three-way split, the visits of both sides, the join keys and what is applied again, for products of either kind alike |
| `FilterPushDown.FilterPushDownOptimizer.VisitScanNodeTableReplace` | src/optimizer/filter_push_down_optimizer.cpp:180-208 | hints and index look-up are set on the scan in place; a popped equality that is no constant is put back |
| `FilterPushDown.FilterPushDownOptimizer.VisitTableFunctionCallReplace` | src/optimizer/filter_push_down_optimizer.cpp:210-217 | all predicates become hints of the call, in place, and are stacked on top |
| `FilterPushDown.FilterPushDownOptimizer.VisitExtendReplace` | src/optimizer/filter_push_down_optimizer.cpp:219-231 | hints are set on a plain extend when zone maps are on, and never on a recursive one |
| `FilterPushDown.FilterPushDownOptimizer.FinishPushDown` | src/optimizer/filter_push_down_optimizer.cpp:233-242 | every pending predicate is stacked on top, and none stays pending |
| `FilterPushDown.AppendFilters` | src/optimizer/filter_push_down_optimizer.cpp:257-275 | the loop stacks one filter per predicate, the first one lowest |
| `FilterPushDown.SplitPredicates` | src/optimizer/filter_push_down_optimizer.cpp:80-93 | the loop computes the three sets of `PushDownRows.SplitCounts` |
| `FilterPushDown.CollectJoinConditions` | src/optimizer/filter_push_down_optimizer.cpp:100-118 | the loop computes the keys and the rest of `PushDownRows.JoinKeysMatch` |
| `FilterPushDown.PopNodePKEqualityComparison` | src/optimizer/filter_push_down_optimizer.cpp:298-322 | the loop pops the first comparison with the node's primary key, key on the left, and keeps the others in order |
| `PushDownRows.PushDownKeepsRows` | src/optimizer/filter_push_down_optimizer.cpp:26-136 | main theorem: if every product it reaches is kept, the plan returned has the same columns and yields exactly the rows of the visited plan that satisfy all pending predicates, in order |
| `PushDownExact.PushDownYields` | src/optimizer/filter_push_down_optimizer.cpp:26-136 | for every plan without a mark to lose, whatever the tables hold: the plan returned has exactly the selected rows of the plan in which each optional build side that the push-down empties is empty from the start |
| `PushDownExact.PushDownExactly` | src/optimizer/filter_push_down_optimizer.cpp:26-136 | so the push-down is right if and only if the plan and that plan select the same rows |
| `PushDownExact.EmptiedExactly` | src/optimizer/filter_push_down_optimizer.cpp:78-136 | where filters and products lead to an optional product left without build rows the plan selects nothing, and the push-down is right if and only if the plan with the empty side selects nothing |
| `PushDownExact.RewriteYields` | src/optimizer/filter_push_down_optimizer.cpp:22-24 | the plan left in place has the rows of the plan with the emptied sides empty |
| `PushDownExact.KeptSelectsSame` | src/optimizer/filter_push_down_optimizer.cpp:78-136 | the condition of the main theorem implies the exact one |
| `PushDownPlaces.PushedDown` | src/optimizer/filter_push_down_optimizer.cpp:26-242 | where every predicate goes, for all plans and pending predicates, in terms of sets of predicates and of columns: through filters and down to the one side of each product it can be evaluated on; a product becomes an inner join exactly when a predicate that belongs to neither or both sides connects columns of the two, with the keys of all that do, and the others of these on top; at a scan of one table a predicate that fixes the primary key becomes its key, and does if none compares the key with anything else; all others are on top of the operator that stops them, and of scans and calls they become hints; below that operator a new push-down starts |
| `PushDownPlaces.PoppedOnce` | src/optimizer/filter_push_down_optimizer.cpp:298-322 | popping the comparison with the key takes the first of them out once and leaves all others |
| `PushDownPlaces.EqualitiesLowest` | src/optimizer/filter_push_down_optimizer.cpp:233-283 | of the filters put on top of an operator the equalities are applied before all others |
| `PushDownPlaces.ScanCounts` | src/optimizer/filter_push_down_optimizer.cpp:180-208 | above a scan every predicate is applied once, but for the one that becomes the key |
| `PushDownPlaces.RootKept` | src/optimizer/filter_push_down_optimizer.cpp:22-24 | the filters and the operator at the root stay, and everything below them is pushed down, with nothing pending from above |
| `PushDownRows.FirstProductExactly` | src/optimizer/filter_push_down_optimizer.cpp:61-136 | a product directly below filters, of either kind and with a mark or without: rows and columns are kept if and only if the condition holds |
| `PushDownRows.ProductExactly` | src/optimizer/filter_push_down_optimizer.cpp:78-136 | one product, regular or optional, whose sides are pushed correctly: kept if and only if `ProductKept` holds |
| `PushDownRows.ProductEmptied` | src/processor/operator/result_collector.cpp:60-87 | when pushing empties the build side of an optional product, the original yields nothing and the rewritten product the same exactly when no probe row extended by NULLs satisfies the predicates |
| `PushDownRows.ProductStays` | src/optimizer/filter_push_down_optimizer.cpp:78-119 | in all other cases pushing into a product changes no selected row |
| `PushDownRows.MarkLost` | src/optimizer/filter_push_down_optimizer.cpp:120-136 | a product turned into an inner join keeps its rows and loses its mark, which would be true in all of them |
| `PushDownRows.JoinsExactly` | src/optimizer/filter_push_down_optimizer.cpp:98-119 | a product becomes a join exactly when some pending equality has a column of each side |
| `PushDownRows.NothingPushedKept` | src/optimizer/filter_push_down_optimizer.cpp:78-97 | plans in which the push-down takes no predicate into an optional build side, and turns no product with a mark into a join, are kept whatever the tables hold |
| `PushDownRows.VisitedKeepsRows` | src/optimizer/filter_push_down_optimizer.cpp:61-136 | the visited operator, left in place below the filters its predicates came from, selects the same rows |
| `PushDownRows.RewriteKeepsRows` | src/optimizer/filter_push_down_optimizer.cpp:22-24 | the plan left in place has the rows and columns of the plan given |
| `PushDownRows.KeptStaysInPlace` | src/optimizer/filter_push_down_optimizer.cpp:22-24 | where the operator returned is right, so is the one left in place |
| `PushDownRows.SplitCounts` | src/optimizer/filter_push_down_optimizer.cpp:80-93 | each side gets exactly the predicates that can be evaluated there and not on the other side, the rest stays; none is lost or doubled |
| `PushDownRows.CrossSplit` | src/optimizer/filter_push_down_optimizer.cpp:78-97 | filtering both sides first and the product by the rest, or by all, is filtering the product by all |
| `PushDownRows.JoinKeysMatch` | src/optimizer/filter_push_down_optimizer.cpp:100-118 | the join keys and the predicates left over hold together exactly when all equalities do |
| `PushDownRows.JoinKeysValid` | src/optimizer/filter_push_down_optimizer.cpp:100-118 | each key has its left side on the probe side and its right side on the build side; there are keys exactly when some equality joins the sides |
| `PushDownRows.CrossToJoin` | src/optimizer/filter_push_down_optimizer.cpp:120-136 | the product filtered by the equalities has the rows of the hash join filtered by what is left over |
| `PushDownRows.StackPushed` | src/optimizer/filter_push_down_optimizer.cpp:257-275 | a tower of filters yields the rows that satisfy all its predicates |
| `PushDownRows.FilterSelects` | src/optimizer/filter_push_down_optimizer.cpp:61-76 | a filter below pending predicates selects what its child does with its condition pending too |
| `PushDownRows.PopSplits` | src/optimizer/filter_push_down_optimizer.cpp:298-322 | the popped comparison and the others hold together exactly when the whole set does |
| `PushDownRows.ScanVisited` | src/optimizer/filter_push_down_optimizer.cpp:180-208 | hints, index look-up and what is applied above give the selected rows of the scan |
| `PushDownRows.IndexScan` | src/optimizer/filter_push_down_optimizer.cpp:187-207 | looking the key up in the primary-key index and applying the rest gives the rows the whole predicate set selects |
| `RowAlgebra.LookupIsSelection` | src/optimizer/filter_push_down_optimizer.cpp:187-207 | with unique keys, one index look-up is the selection of the table by equality with the key |
| `PushDownRows.CallVisited` | src/optimizer/filter_push_down_optimizer.cpp:210-217 | hints of a table function change no selected row |
| `PushDownRows.ExtendVisited` | src/optimizer/filter_push_down_optimizer.cpp:219-231 | nor do hints on an extend |
| `PushDownRows.ChildrenVisited` | src/optimizer/filter_push_down_optimizer.cpp:50-59 | an operator that stops the push-down keeps its rows when its children are rewritten |
| `OptionalMatch.PushBelowOptionalAddsRows` | src/optimizer/filter_push_down_optimizer.cpp:78-136 | a query with an OPTIONAL MATCH and no rows: rewritten it has one, with NULLs for the optional node; the exact conditions cover it |
| `SemiMask.MasksInvisible` | src/optimizer/acc_hash_join_optimizer.cpp:158-174 | main lemma: a plan evaluated under any stack of masks, with its own masks at work, agrees with the plan without masks on the rows that survive the masks |
| `SemiMask.HashJoinMasksInvisible` | src/optimizer/acc_hash_join_optimizer.cpp:239-307 | masks from build to probe of inner joins and from probe to build of inner, left and mark joins change no surviving row of the join |
| `SemiMask.CrossMasksInvisible` | src/processor/operator/result_collector.cpp:60-87 | masks from above change no surviving row of a product; the build side of an optional one must have no scan to mask, because missing rows would become NULLs |
| `SemiMask.JoinOfSurvivors` | src/optimizer/acc_hash_join_optimizer.cpp:279-307 | joining only the rows that survive on each side gives the surviving rows of the join |
| `SemiMask.VisitHashJoinSafe` | src/optimizer/acc_hash_join_optimizer.cpp:309-324 | trying the two directions in turn adds only masks that are invisible, and touches nothing else of the join, if the side that is masked is a safe target; nothing is asked of the other side |
| `SemiMask.VisitOperatorSafe` | src/optimizer/acc_hash_join_optimizer.cpp:123-133 | the bottom-up rewrite of a plan only adds such masks |
| `SemiMask.SemiMasksPreserveRows` | src/optimizer/acc_hash_join_optimizer.cpp:123-324 | the rewritten plan has the rows and columns of the plan, if no scan that gets a mask lies below an operator that is not transparent to it |
| `SemiMaskPlaces.CandidatesExactly` | src/optimizer/acc_hash_join_optimizer.cpp:158-174 | a side has scans to mask for a node exactly if somewhere in it is a scan of that node that is no index look-up |
| `SemiMaskPlaces.FiltersExactly` | src/optimizer/acc_hash_join_optimizer.cpp:135-145 | a side is selective exactly if somewhere in it is a filter or an index look-up |
| `SemiMaskPlaces.AllPlaced` | src/optimizer/acc_hash_join_optimizer.cpp:123-324 | in every plan exactly these joins get masks: from build to probe if inner, not prohibited, forced or with a selective build side, and with a joined node scanned on the probe side; else from probe to build if not prohibited, with a selective probe side, and with a joined node scanned on the build side; the maskers are keyed on exactly the joined nodes scanned on the other side, and nothing else of the plan changes |
| `SemiMask.MaskBelowLimitChangesRows` | src/optimizer/acc_hash_join_optimizer.cpp:158-174 | a join over a LIMIT that keeps one row: masking the scan below it changes an empty result into one row |
| `Catalogs.CatalogSet.constructor` | src/catalog/catalog_set.cpp:268-283 | loading puts one version per saved entry, with timestamp 0, on its chain |
| `Catalogs.CatalogSet.TraverseVersionChains` | src/catalog/catalog_set.cpp:121-135 | the loop finds the newest version written by the transaction or committed at or before its start |
| `Catalogs.CatalogSet.GetCommittedEntry` | src/catalog/catalog_set.cpp:137-145 | the loop finds the newest committed version |
| `Catalogs.CatalogSet.ContainsEntry` | src/catalog/catalog_set.cpp:38-47 | a name is there when the visible version is not a tombstone |
| `Catalogs.CatalogSet.GetEntry` | src/catalog/catalog_set.cpp:54-63 | the visible version of a name, or an error |
| `Catalogs.CatalogSet.CreateEntry` | src/catalog/catalog_set.cpp:65-79 | the OID is used up even if the create fails; otherwise placeholder, version and undo record are as the specification of create says |
| `Catalogs.CatalogSet.CreateEntryNoLock` | src/catalog/catalog_set.cpp:81-111 | write-write conflict, existing name, placeholder below a first version, and the new version on top |
| `Catalogs.CatalogSet.DropEntry` | src/catalog/catalog_set.cpp:147-169 | a tombstone on top of the chain and an undo record of the version below it |
| `Catalogs.CatalogSet.AlterTableEntry` | src/catalog/catalog_set.cpp:171-208 | a changed version on top, with the OID of the visible one; adding a connection takes an OID from the counter |
| `Catalogs.CatalogSet.RenameTableEntry` | src/catalog/catalog_set.cpp:171-208 | a tombstone under the old name and a version with the same OID under the new one; a failure keeps the tombstone without its undo record |
| `Catalogs.CatalogSet.GetEntries` | src/catalog/catalog_set.cpp:210-221 | all live names the transaction sees, with their entries |
| `Catalogs.CatalogSet.GetEntryOfOID` | src/catalog/catalog_set.cpp:223-237 | an entry live for the transaction under a name whose newest version has the OID, or none if there is no such name |
| `Catalogs.CatalogSet.SerializeEntries` | src/catalog/catalog_set.cpp:239-266 | the newest committed version of every name that is live and of a persisted kind |
| `Catalogs.CatalogSet.CommitUndo` | src/storage/undo_buffer.cpp:164-204 | each record stamps the version above the one it points at, in order |
| `Catalogs.CatalogSet.RollbackUndo` | src/storage/undo_buffer.cpp:171-270 | the records are undone last to first, each cutting its chain above the version it points at |
| `CatalogHistory.ViewIsReplay` | src/catalog/catalog_set.cpp:121-135 | if a transaction may see exactly a prefix of the history, what traversal finds for every name is the replay of that prefix |
| `CatalogCommits.CommitMatches` | src/storage/undo_buffer.cpp:164-204 | committing a writer's undo records succeeds and restamps exactly the writer's changes in every chain |
| `CatalogCommits.RollbackMatches` | src/storage/undo_buffer.cpp:253-270 | rolling them back succeeds and removes exactly those changes |
| `CatalogCommits.NextKeepsInv` | src/catalog/catalog_set.cpp:65-208 | every step of begin, create, drop, alter, rename, commit, rollback and end keeps each chain equal to the history of its name |
| `CatalogCommits.RunKeepsInv` | src/transaction/transaction_manager.cpp:20-102 | so do all runs from a loaded catalog, and no OID is ever live under two names |
| `CatalogRuns.RunViews` | src/catalog/catalog_set.cpp:65-145 | snapshot isolation: in every run each reader sees the replay of what was committed at or before its start and the writer sees everything committed and its own changes |
| `CatalogRuns.ReadersAreIsolated` | src/catalog/catalog_set.cpp:121-135 | no step of any other transaction changes what a running reader sees |
| `CatalogRuns.RollbackRestores` | src/storage/undo_buffer.cpp:171-270 | after a rollback every other transaction sees what it saw before, as if the writer had done nothing |
| `CatalogRuns.CommitPublishes` | src/storage/undo_buffer.cpp:164-204 | transactions that start after a commit see exactly what the writer saw |
| `SnapshotCatalog.CreateExactly` | src/catalog/catalog_set.cpp:26-103 | for any catalog and any number of writers: a create fails with a conflict exactly when the name is free for the transaction but its newest version is neither the transaction's own nor committed before its start, and as a duplicate exactly when the transaction finds the name; else the transaction finds the new entry; nobody else finds anything new |
| `SnapshotCatalog.DropExactly` | src/catalog/catalog_set.cpp:147-169 | a drop fails exactly when the transaction does not find the name, and else removes it for the transaction and for nobody else |
| `SnapshotCatalog.AlterExactly` | src/catalog/catalog_set.cpp:171-208 | an alteration fails exactly when the transaction does not find the name, and else replaces the entry under its OID for the transaction and for nobody else |
| `SnapshotCatalog.RenameMoves` | src/catalog/catalog_set.cpp:182-192 | a rename that succeeds moves the entry with its OID to the new name, for the transaction and for nobody else |
| `SnapshotCatalog.StepRefines` | src/transaction/transaction_manager.cpp:20-102 | in every reachable state each step of the versioned catalog does to what the readers, the writer and a new transaction find exactly what the step does to a catalog that keeps a whole copy for each of them |
| `SnapshotCatalog.RunRefines` | src/transaction/transaction_manager.cpp:20-102 | so does every run from any saved contents |
| `SnapshotCatalog.NewReaderSees` | src/transaction/transaction_manager.cpp:27-32 | after every run a reader that starts gets a new id and finds everything committed so far and nothing else |
| `SnapshotCatalog.NewWriterSees` | src/transaction/transaction_manager.cpp:33-47 | so does a writer, unless another one is running; then nothing changes |
| `SnapshotCatalog.CommitReachesReader` | src/transaction/transaction_manager.cpp:56-80 | after every run, a reader that starts behind a commit finds exactly what the writer found before it |
| `CatalogRuns.TraversalFinds` | src/catalog/catalog_set.cpp:121-135 | every chain of a reachable state has a version visible to every transaction, so traversal never runs off its end |
| `CatalogSteps.RenameSteps` | src/catalog/catalog_set.cpp:171-208 | a rename to a name that is free for the writer succeeds and is a drop followed by a create with the same OID |
| `CatalogSteps.RenameExactly` | src/catalog/catalog_set.cpp:171-208 | a rename succeeds if and only if the new name is not live for the writer or is the old one; a failure hands out no undo record and leaves a chain that is no longer the history of its name |
| `CatalogRuns.OIDsAreUnique` | src/catalog/catalog_set.cpp:65-79 | no transaction sees one OID under two names, across renames too |
| `CatalogRuns.WriterFindsByOID` | src/catalog/catalog_set.cpp:223-237 | in every reachable state whatever a look-up by OID finds for the writer is the entry of its view with that OID, and it finds one if there is one |
| `CatalogRuns.ReaderFindsByOID` | src/catalog/catalog_set.cpp:223-237 | the same for a reader if and only if no name it sees was given to another entry, committed or not, since it started |
| `CatalogExamples.ReusedNameConfusesReader` | src/catalog/catalog_set.cpp:223-237 | while a reader is open a table is dropped and its name created again: the new OID finds the old table and the old OID nothing |
| `CatalogRuns.CheckpointSaves` | src/catalog/catalog_set.cpp:137-145 | in every reachable state, a running writer or not, a checkpoint saves the committed view without exactly those names whose newest version is a live entry of a kind that is not persisted |
| `CatalogRuns.CheckpointPersistsExactly` | src/catalog/catalog_set.cpp:239-266 | that is the persisted part of the committed view if and only if for each committed name the newest version, unless a tombstone, is persisted exactly when the committed one is |
| `CatalogRuns.CheckpointSavesCommitted` | src/catalog/catalog_set.cpp:239-266 | with no writer running that is the persisted part of the committed view |
| `CatalogRuns.CheckpointRoundTrip` | src/catalog/catalog_set.cpp:239-283 | loading a checkpoint gives every transaction what was saved, in a state from which all runs are sound again |
| `CatalogExamples.DropBaresFunction` | src/catalog/catalog_set.cpp:239-266 | while a function is being dropped a checkpoint would save it |
| `CatalogExamples.FailedRenameLosesTable` | src/catalog/catalog_set.cpp:171-208 | renaming onto an existing table fails without an undo record; altering the table afterwards and committing makes it vanish |
| `Vectors.DenoteHasType` | src/common/vector/auxiliary_buffer.cpp:26-37 | a row of a valid vector denotes a value of the vector's type, NULL exactly for NULL rows |
| `IntegerText.SkipWhitespace` | src/function/cast_from_string_functions.cpp:180-193 | the cursor stops at the first character that is no white space |
| `IntegerText.TrimRightWhitespace` | src/function/cast_from_string_functions.cpp:195-199 | the end moves back over all white space |
| `IntegerText.SkipsExactlyWhite` | src/function/cast_from_string_functions.cpp:180-199 | what both skip is blank, tab, line feed, vertical tab, form feed or carriage return, and what they stop at is none of these |
| `IntegerText.IntegerCastLoop` | src/include/function/cast/functions/cast_string_non_nested_functions.h:190-210 | succeeds exactly for non-empty digits whose value fits 64 bits, negative ones down to the least integer, and gives that value |
| `IntegerText.TryIntegerCast` | src/include/function/cast/functions/cast_string_non_nested_functions.h:213-239 | reads exactly the texts with an optional minus sign and no leading zero |
| `IntegerText.IntRoundTrip` | src/include/function/cast/functions/cast_string_non_nested_functions.h:213-239 | every 64-bit integer is read back from its decimal text |
| `ListText.PrintEntry` | src/common/type_utils.cpp:183-197 | a row of a list vector prints as the text of the value it denotes: elements separated by commas, nothing for NULL |
| `ListText.SkipToCloseQuotes` | src/function/cast_from_string_functions.cpp:210-221 | the cursor moves to the next equal quote, or to the end |
| `ListText.SkipToClose` | src/function/cast_from_string_functions.cpp:223-249 | the cursor moves to the bracket that closes the group, quotes and inner groups skipped; the wrapping level counter goes down by one for a bracket and is unchanged for a brace however many brackets lie inside |
| `ListSpelling.BracketPassed` | src/function/cast_from_string_functions.cpp:223-249 | the search for a closing bracket and the splitter pass over any bracketed list as over one piece, at any depth |
| `ListSpelling.NullExactly` | src/function/cast_from_string_functions.cpp:251-269 | the test for NULL accepts exactly the texts that are white space or the word NULL in any mixture of cases with white space around it |
| `ListSpelling.IntSpelling` | src/include/function/cast/functions/cast_string_non_nested_functions.h:213-239 | a text is read as a 64-bit integer exactly if it is decimal notation for it, without leading zeros unless after a minus sign |
| `ListSpelling.PiecesOf` | src/function/cast_from_string_functions.cpp:302-349 | splitting texts written between brackets, with commas between them and white space anywhere around brackets and commas, gives these texts without leading white space; only a single blank one is lost |
| `ListSpelling.SplitCovers` | src/function/cast_from_string_functions.cpp:302-349 | the pieces found in any closed list, with the white space skipped before them and the commas between them, are the whole text up to the closing bracket |
| `ListSpelling.Accepted` | src/function/cast_from_string_functions.cpp:302-409 | every way to write a value is read as that value: white space around brackets, commas and elements, NULL in any case or left out where there are other elements |
| `ListSpelling.OnlyWritten` | src/function/cast_from_string_functions.cpp:302-409 | and only these are: what is read as a value is a way to write it |
| `ListSpelling.ListCastExactly` | src/function/cast_from_string_functions.cpp:388-409 | the cast of a text to a list of any depth gives a value if and only if the text is a way to write that list |
| `ListRoundTrip.PrintIntSpells` | src/common/type_utils.cpp:183-197 | integers are printed in decimal notation, with a minus sign exactly when they are negative |
| `ListRoundTrip.PrintSpells` | src/common/type_utils.cpp:183-197 | what is printed is a way to write the value with every [NULL] made empty, without white space around it |
| `ListRoundTrip.PrintedCharacters` | src/common/type_utils.cpp:183-197 | it has digits, minus signs, brackets and commas in it and nothing else |
| `ListRoundTrip.RoundTrip` | src/function/cast_from_string_functions.cpp:302-409 | casting the printed text of a list of any depth gives it back with every [NULL] made empty |
| `ListRoundTrip.RoundTripExact` | src/function/cast_from_string_functions.cpp:302-409 | the round trip is exact if and only if no list in the value is exactly [NULL] |
| `ListRoundTrip.LoneNullIsLost` | src/common/type_utils.cpp:183-197 | [NULL] prints like [] and comes back as [] |
| `ListCast.HandleValue` | src/function/cast_from_string_functions.cpp:272-298 | one piece is one more in the count, or the trimmed piece cast into the next row, and no other row changes |
| `ListCast.SplitCStringList` | src/function/cast_from_string_functions.cpp:302-349 | for every text, malformed ones too, counting and splitting handle the same pieces, in order, and report the same validity |
| `ListCast.TestNull` | src/function/cast_from_string_functions.cpp:251-269 | true exactly for the ways to write NULL |
| `ListCast.CopyStringToVector` | src/function/cast_from_string_functions.cpp:861-960 | succeeds exactly when the text is a way to write a value of the type, and writes that value to the row and to no other |
| `ListCast.CastList` | src/function/cast_from_string_functions.cpp:388-409 | succeeds exactly when the text is a way to write a list of the type, and writes that list to the row and nothing to others; the second pass never writes more rows than the first made room for |
| `ListCast.CopyThroughText` | src/function/cast_from_string_functions.cpp:388-409 | printing a list row of one vector and casting the text into another copies the value if and only if it holds no list that is exactly [NULL] |
| `NestedOrder.NestedEqual` | src/function/comparison_functions.cpp:104-164 | two rows are equal exactly when they denote the same value, two NULLs included |
| `NestedOrder.EqualLists` | src/function/comparison_functions.cpp:115-134 | list rows are equal exactly when their ranges denote the same sequence |
| `NestedOrder.EqualStructs` | src/function/comparison_functions.cpp:136-164 | struct rows are equal exactly when all their fields are |
| `NestedOrder.NestedGreaterThan` | src/function/comparison_functions.cpp:166-185 | both results are those of the values: integers compare as integers, a NULL row is greater than every other row and nothing is greater than it |
| `NestedOrder.GreaterLists` | src/function/comparison_functions.cpp:187-205 | the first difference decides, and then the length |
| `NestedOrder.GreaterStructs` | src/function/comparison_functions.cpp:207-222 | the first different field decides |
| `NestedOrder.NullIsGreatest` | src/function/comparison_functions.cpp:171-173 | NULL is greater than exactly the values that are not NULL, and nothing is greater than it |
| `NestedOrder.ScalarsCompare` | src/function/comparison_functions.cpp:174-176 | rows of scalars compare as the integers in them |
| `NestedOrder.FirstDifferenceDecides` | src/function/comparison_functions.cpp:187-222 | a list or struct is greater if and only if there is a place before which both agree and at which it has the greater value or the only one |
| `NestedOrder.ListRowsCompare` | src/function/comparison_functions.cpp:187-205 | the same for the rows of list vectors, by the entries they have in their data vectors |
| `NestedOrder.NullElementDecides` | src/function/comparison_functions.cpp:171-222 | a NULL element or field where the other list or struct has a value makes it greater |
| `NestedOrder.Irreflexive` | src/function/comparison_functions.cpp:187-222 | no value is greater than itself |
| `NestedOrder.Trichotomy` | src/function/comparison_functions.cpp:104-222 | of two different values of one type, of any depth, exactly one is greater |
| `NestedOrder.Transitive` | src/function/comparison_functions.cpp:166-222 | greater-than is transitive on values of one type |
| `NestedHash.ComputeHash` | src/function/vector_hash_functions.cpp:204-225 | the hash of each selected row goes to its selected place, for scalars, lists and structs of any depth, and nothing else changes |
| `NestedHash.HashScalars` | src/function/vector_hash_functions.cpp:21-63 | filtered or not, with or without the promise of no nulls, each selected row gets the hash of its value or the NULL hash |
| `NestedHash.HashDataVector` | src/function/vector_hash_functions.cpp:123-145 | chunk by chunk, every value of the data vector is hashed once, also beyond one vector's capacity |
| `NestedHash.HashLists` | src/function/vector_hash_functions.cpp:147-164 | a list row gets the fold of the hashes of its own elements |
| `NestedHash.HashStructs` | src/function/vector_hash_functions.cpp:172-202 | a struct row gets the hash of its first field combined with each further one |
| `NestedHash.CombineHashes` | src/function/vector_hash_functions.cpp:90-121 | combining two hash vectors in place touches each selected place once |
| `NestedHash.RowHashIsHash` | src/function/vector_hash_functions.cpp:21-202 | a row without a NULL struct, except one whose fields hash like NULL, has the hash of its value, whatever its place, selection or chunk |
| `NestedHash.ListHashGrows` | src/function/vector_hash_functions.cpp:147-164 | the empty list hashes like NULL, and a list with one more element to the combination of the hash of the list and that of the element |
| `NestedHash.StructHashGrows` | src/function/vector_hash_functions.cpp:186-198 | a struct of one field hashes like the field, and one with one more field to the combination of the hash of that field and that of the others |
| `NestedHash.HashesByValueExactly` | src/function/vector_hash_functions.cpp:172-202 | these are exactly the rows that hash by their value under every hash function |
| `NestedHash.EqualRowsHashAlike` | src/function/vector_hash_functions.cpp:123-202 | such rows that compare equal hash alike |
| `NestedHash.NullStructsHashApart` | src/function/vector_hash_functions.cpp:172-202 | two NULL structs denote the same value and can have different hashes |
| `NullMasks.SetBit` | src/common/null_mask.cpp:13-21 | sets or clears exactly one bit, its position taken as a 32-bit number |
| `NullMasks.CopyFewBits` | src/common/null_mask.cpp:25-35 | copies the bits one by one, positions taken as 32-bit numbers; the flag is about the source bits before inversion |
| `NullMasks.FewInOrder` | src/common/null_mask.cpp:25-35 | below 2^32 exactly the given bits are copied |
| `NullMasks.FewExactly` | src/common/null_mask.cpp:25-35 | at any position the copy is exact if and only if the bits at the wrapped places agree with those meant |
| `NullMasks.HighBitMisplaced` | src/common/null_mask.cpp:13-21 | bit 2^32 of a clear mask written set: bit 0 is set instead |
| `NullMasks.Aligned` | src/common/null_mask.cpp:80-124 | masking and shifting moves exactly the bits to copy to their place, for all three relative positions |
| `NullMasks.CopyUnaligned` | src/common/null_mask.cpp:73-135 | for all offsets and lengths exactly the given bits are copied, inverted if asked, every other bit is unchanged, and the flag is the OR of the written bits |
| `NullMasks.CopyBytes` | src/common/null_mask.cpp:48-56 | copying bytes is copying their bits |
| `NullMasks.CopyByteAligned` | src/common/null_mask.cpp:36-67 | first byte, whole bytes and last byte together copy exactly the given bits |
| `NullMasks.CopyNullMask` | src/common/null_mask.cpp:23-71 | whatever path is taken exactly the given bits are copied, if single bits are addressed below 2^32, and otherwise as `CopyFewBits` says; the flag is the OR of the written bits except for inverted copies of at most three bits |
| `NullMasks.ReportsWritten` | src/include/common/null_mask.h:139-146 | the documented meaning of the flag holds if and only if the copy is not an inverted one of one to three bits, or these bits differ |
| `NullMasks.ClearBitMisreported` | src/common/null_mask.cpp:25-35 | one clear bit copied inverted is written set and reported clear |
| `NullMasks.SetBitMisreported` | src/common/null_mask.cpp:25-35 | one set bit copied inverted is written clear and reported set |
| `NullMasks.SetNullRange` | src/common/null_mask.cpp:164-207 | sets exactly the bits of the range, within a word or over any number of words |
| `NullMasks.GetMinMax` | src/common/null_mask.cpp:216-278 | the AND and the OR of the bits of any range that is not empty |
| `NullMasks.NullMask.SetAllNonNull` | src/include/common/null_mask.h:92-98 | no bit is set afterwards, also when the fill is skipped on the strength of the promise |
| `NullMasks.NullMask.SetAllNull` | src/include/common/null_mask.h:99-102 | every bit is set afterwards |
| `NullMasks.NullMask.SetNull` | src/include/common/null_mask.h:108-114 | one bit changes and the promise to hold no nulls stays true |
| `NullMasks.NullMask.SetNullFromRange` | src/common/null_mask.cpp:156-162 | a range changes and the promise stays true |
| `NullMasks.NullMask.CopyFromNullBits` | src/common/null_mask.cpp:145-154 | exactly the bits are copied; the promise stays true if and only if this is not an inverted copy of one to three clear bits into a mask that makes it |
| `NullMasks.NullMask.CopyFrom` | src/include/common/null_mask.h:148-157 | a source that promises no nulls need not be read: the result is the same per-bit copy; the flag is then the inversion, even if no bit is copied |
| `NullMasks.NullMask.OrWith` | src/common/null_mask.cpp:209-214 | the union bit by bit; the promise stays true if and only if it is not made or the other mask holds no nulls |
| `NullMasks.BrokenPromises` | src/common/null_mask.cpp:145-214 | two masks that promise no nulls and hold one, after an inverted copy of a clear bit and after a union |
| `Md5Core.F1` | src/common/md5.cpp:41 | the optimised form is F of section 3.4 of RFC 1321 |
| `Md5Core.F2` | src/common/md5.cpp:42 | F1 with its arguments turned is G of that section |
| `Md5Core.Auxiliary` | src/common/md5.cpp:41-44 | in each of the four rounds the code's function is that of the RFC |
| `Md5Core.StartsAlike` | src/common/md5.cpp:129-137 | the four initial words are the bytes section 3.3 of RFC 1321 lists, low-order byte first |
| `Md5Core.Rotated` | src/common/md5.cpp:46-127 | in each of the 64 steps the shifts of the code are the circular shift to the left by the number of bits the RFC lists |
| `Md5Core.SameWords` | src/common/md5.cpp:55-121 | the code takes the words of the block in the order of the RFC, in strides of 1, 5, 3 and 7 |
| `Md5Core.SameConstants` | src/common/md5.cpp:55-121 | the 64 constants the code adds are those of the sine table of the RFC |
| `Md5Core.StepsFollowRfc` | src/common/md5.cpp:46-127 | any number of the 64 steps, with the code's order of additions, does what these steps of section 3.4 of RFC 1321 do |
| `Md5Core.TransformFollowsRfc` | src/common/md5.cpp:46-127 | working a block into the state is as in section 3.4 of RFC 1321 |
| `BlockDigest.CountMore` | src/common/md5.cpp:142-147 | the two 32-bit counters with their carry hold the low-order 64 bits of the length in bits after any update |
| `BlockDigest.Context.Init` | src/common/md5.cpp:129-137 | nothing has been added and the state is the initial one |
| `BlockDigest.Context.Update` | src/common/md5.cpp:139-181 | whole blocks are worked in, the rest is buffered and the length counted, wherever the pieces are cut |
| `BlockDigest.Context.Pad` | src/common/md5.cpp:185-207 | with room in the block or not, the padding of section 3.1 of RFC 1321 leaves the length to fill the last block |
| `BlockDigest.Context.Final` | src/common/md5.cpp:183-218 | the state is that of padding the whole message, appending its length as in section 3.2 of RFC 1321 and working in block by block |
| `BlockDigest.Digester.Add` | src/include/common/md5.h:74-80 | the first piece begins a digest, further pieces continue it |
| `BlockDigest.Digester.Finish` | src/include/common/md5.h:85-93 | the digest of everything added since the last one; without anything added, the last result again |
| `BlockDigest.DigestPieces` | src/common/md5.cpp:129-218 | for any sequence of updates the digest is that of the concatenation taken at once |
| `Md5.WordRoundTrip` | src/common/md5.cpp:31-38 | words stored low-order byte first are read back unchanged |
| `Md5.SameWord` | src/common/md5.cpp:31-38 | bytes are put together to the word whose low-order byte comes first |
| `Md5.SameBytes` | src/common/md5.cpp:213-215 | and a word is stored with its low-order byte first |
| `Md5.HexSpells` | src/common/md5.cpp:220-230 | the text has for each byte the digit for its high half and then the digit for its low half |
| `Md5.FollowsRfc` | src/common/md5.cpp:46-218 | for every message the code ends in the state of the RFC's padding and steps, and so with its digest |
| `Md5.DigestOf` | src/common/md5.cpp:129-232 | streaming MD5 in hexadecimal is the digest of the concatenated bytes by the steps of RFC 1321, taken at once |
| `Md5Example.DigestOfLetters` | src/common/md5.cpp:46-230 | the digest of the letters from a to z is the one appendix A.5 of RFC 1321 lists |
| `Find.UnalignedNeedleSizeFind` | src/function/find_function.cpp:10-42 | the shifted window finds the least index of the needle, or -1 |
| `Find.SlideWindow` | src/function/find_function.cpp:32-35 | shifting by a byte and adding the next character moves the window on by one, also when the word is wider than the needle |
| `Find.AlignedNeedleSizeFind` | src/function/find_function.cpp:44-58 | word-sized comparison at every offset finds the least index, or -1 |
| `Find.GenericFind` | src/function/find_function.cpp:60-91 | the wrapping rolling sum skips no occurrence: the least index, or -1 |
| `Find.FindFirst` | src/function/find_function.cpp:93-127 | for every haystack and non-empty needle the least index at which it occurs, or -1 |
| `Find.FirstMeans` | src/function/find_function.cpp:93-127 | the least index is the one place at which the needle can be cut out of the haystack and before which it cannot, and -1 stands for exactly the haystacks without one |
| `Slices.ListEntryTracker.constructor` | src/expression_evaluator/list_slice_info.cpp:10-23 | the selected rows sorted by offset, positioned on the first element of the first list that has one |
| `Slices.ListEntryTracker.GetNextDataOffset` | src/expression_evaluator/list_slice_info.cpp:25-49 | moves on by exactly one element, over empty and NULL lists, and returns where the next one is, or the invalid offset after the last |
| `Slices.ListSliceInfo.NextSlice` | src/expression_evaluator/list_slice_info.cpp:91-103 | the next elements with their rows, as many as fit; a short slice is the last |
| `Slices.EvaluateSlices` | src/expression_evaluator/lambda_evaluator.cpp:54-67 | the slices together list the elements of all selected lists that are not NULL, list by list in offset order; all are full but the last, and the loop ends |
| `Slices.ItemsAreSelected` | src/expression_evaluator/list_slice_info.cpp:91-103 | exactly the elements of the selected lists are listed, each with its own row |
| `Slices.ItemsOnce` | src/expression_evaluator/list_slice_info.cpp:91-103 | each once, if no row is selected twice |
| `Slices.OffsetsIncrease` | src/expression_evaluator/list_slice_info.cpp:10-23 | over the whole run the data offsets increase if and only if no two selected lists overlap |
| `CaseEvaluation.CaseEvaluator.Evaluate` | src/expression_evaluator/case_evaluator.cpp:27-49 | every selected row gets the THEN value of the first alternative whose WHEN is true, else the ELSE value, despite the early return; other rows are unchanged |
| `CaseEvaluation.FirstTrueDecides` | src/expression_evaluator/case_evaluator.cpp:27-49 | that is the result of the first alternative whose condition is true where all before it are false or NULL |
| `CaseEvaluation.ElseDecides` | src/expression_evaluator/case_evaluator.cpp:47-48 | and the ELSE value where all conditions are false or NULL |
| `CaseEvaluation.CaseEvaluator.FillEntry` | src/expression_evaluator/case_evaluator.cpp:98-105 | a filled row keeps its value, another takes the row's or the flat value |
| `CaseEvaluation.AllFilled` | src/expression_evaluator/case_evaluator.cpp:43-45 | as many filled rows as selected ones means that all are filled |
| `CaseEvaluation.SelectInternal` | src/expression_evaluator/case_evaluator.cpp:51-68 | compacting in place keeps, in order, exactly the positions whose result is true |
| `CaseEvaluation.KeptExactly` | src/expression_evaluator/case_evaluator.cpp:51-68 | a position is kept if and only if it stands at a place whose result is true, and none more often than it was there |
| `ClientTransactions.ClientContext.BeginTransaction` | src/transaction/transaction_manager.cpp:20-55 | opens the transaction, or is refused exactly when it would write and another connection is writing |
| `ClientTransactions.ClientContext.CommitTransaction` | src/transaction/transaction_context.cpp:55-61 | back to auto mode with nothing open, or nothing changed when the commit fails |
| `ClientTransactions.ClientContext.RollbackTransaction` | src/transaction/transaction_context.cpp:63-70 | nothing is open afterwards; without a transaction not even the mode changes |
| `ClientTransactions.ClientContext.RunFun` | src/processor/operator/transaction.cpp:21-50 | what each transaction statement does in each state; a begin sets manual mode before it can be refused |
| `ClientTransactions.ClientContext.RunFuncInTransaction` | src/main/client_context.cpp:573-595 | the state and outcome are those of the specification that the lemmas below are about, failed assertions counted |
| `ClientTransactions.ClientContext.ValidateTransaction` | src/main/client_context.cpp:430-438 | refuses writes on a read-only database or in a read-only transaction |
| `ClientTransactions.ClientContext.PrepareNoLock` | src/main/client_context.cpp:440-487 | state and success of preparing, in a transaction of its own for each part |
| `ClientTransactions.ClientContext.ExecuteNoLock` | src/main/client_context.cpp:489-545 | state and success of executing what was prepared |
| `ClientTransactions.ClientContext.Query` | src/main/client_context.cpp:345-391 | the statements in turn, up to the first that fails |
| `ClientTransactions.ClientContext.MakeCalls` | src/main/client_context.cpp:265-391 | a run of queries, prepares and executes ends in the state the lemmas below are about |
| `ClientTransactions.AfterFunc` | src/main/client_context.cpp:573-595 | a failure leaves nothing open, a success keeps a manual transaction, a transaction of its own stays open only if it is not to be committed, and the connection is sound afterwards unless a begin was refused |
| `ClientTransactions.AfterStatement` | src/main/client_context.cpp:440-545 | between statements nothing is open in auto mode, and a statement leaves the connection sound if and only if it is not a BEGIN of a write transaction, with nothing open, while another connection is writing |
| `ClientTransactions.RunsAreSound` | src/main/client_context.cpp:265-391 | after any run of calls, with any failures, in which no BEGIN was refused the connection is in auto mode with nothing open or in manual mode with a transaction, and the assertion on entry held every time |
| `ClientTransactions.RunsAreSoundExactly` | src/main/client_context.cpp:573-576 | with assertions on, a run ends in such a state if and only if no BEGIN of it was refused |
| `ClientTransactions.RunsEndSoundExactly` | src/main/client_context.cpp:573-595 | without assertions a run ends in such a state if and only if the last refused BEGIN, if any, was followed by a statement that recovers the connection: a granted BEGIN or a failed checkpoint |
| `ClientTransactions.StuckStatement` | src/main/client_context.cpp:440-545 | without assertions exactly these statements recover a stuck connection |
| `ClientTransactions.StaysStuck` | src/main/client_context.cpp:573-576 | with assertions on, every call after a refused BEGIN fails on entry and changes nothing |
| `ClientTransactions.RefusedBeginSticks` | src/transaction/transaction_context.cpp:24-28 | one BEGIN while another connection is writing leaves manual mode without a transaction |
| `Sessions.PreparingRefines` | src/main/client_context.cpp:440-487 | from every state between calls, preparing a statement with the transactions it begins and ends on its own leaves the session free, inside a transaction or stuck exactly as a session without such transactions would be |
| `Sessions.StatementRefines` | src/main/client_context.cpp:440-545 | so does preparing and executing it, and it succeeds exactly when its parts do not fail, it may run, and the action it stands for finds the session it needs |
| `Sessions.RunsRefine` | src/main/client_context.cpp:265-391 | so does every run of calls |
| `Sessions.EndsTransaction` | src/transaction/transaction_context.cpp:55-75 | after every run, a COMMIT or ROLLBACK that succeeds found a transaction open in manual mode and leaves auto mode with nothing open |
| `Sessions.EndSucceeds` | src/processor/operator/transaction.cpp:35-40 | inside a transaction a COMMIT that can be bound and may run succeeds exactly when its commit does not fail, a ROLLBACK always |
| `Sessions.OpensTransaction` | src/processor/operator/transaction.cpp:29-34 | a BEGIN that succeeds found nothing open and leaves manual mode with a transaction of exactly the type it asks for |
| `Sessions.TypeLasts` | src/transaction/transaction_context.cpp:47-75 | that type stays until a COMMIT or ROLLBACK succeeds or a statement fails, which leave auto mode with nothing open; a statement refused for writing leaves the transaction as it is |
| `Sessions.NoWriteInReadOnly` | src/transaction/transaction_context.cpp:47-53 | a writing statement that needs a transaction never succeeds inside a read-only one, nor any in a read-only database |
| `Sessions.RefusedExactly` | src/main/client_context.cpp:430-438 | and the validation refuses a statement for no other reason |
| `OverflowBuffer.InMemOverflowBuffer.AllocateSpace` | src/common/in_mem_overflow_buffer.cpp:25-35 | hands out the next bytes of the last block if they fit and of a new block otherwise, inside a kept block and overlapping nothing handed out since the last reset, if and only if offset and size together fit 64 bits; only a block nothing was taken from is given up |
| `OverflowBuffer.WrappingRequest` | src/common/in_mem_overflow_buffer.cpp:25-35 | eight bytes, a request that wraps around and four bytes: the last overlap the first |
| `OverflowBuffer.InMemOverflowBuffer.RequireNewBlock` | src/include/common/in_mem_overflow_buffer.h:63-66 | unless the offset wraps around, a new block is needed exactly when the last one, if there is one, has not that many bytes left |
| `OverflowBuffer.InMemOverflowBuffer.AllocateNewBlock` | src/common/in_mem_overflow_buffer.cpp:53-66 | the new block is large enough, never exceeds the larger of a page and the request, and at least doubles up to a page if twice the last size is at most 2^63 |
| `OverflowBuffer.InMemOverflowBuffer.ResetBuffer` | src/common/in_mem_overflow_buffer.cpp:37-45 | takes everything back and keeps only the last block, with nothing taken from it |
| `OverflowBuffer.InMemOverflowBuffer.Merge` | src/include/common/in_mem_overflow_buffer.h:43-50 | the blocks of both buffers are kept in order, and what both handed out stays in them and disjoint |
| `OverflowBuffer.BitCeil` | src/common/in_mem_overflow_buffer.cpp:59-62 | the least power of two that is not below its argument |
| `Decimals.FitsStorage` | src/common/types/types.cpp:862-879 | ten to the precision is within the storage type for each of the 38 precisions |
| `Decimals.Add` | src/function/vector_arithmetic_functions.cpp:490-505 | exact when the sum fits the precision and fails exactly otherwise; every intermediate fits the storage type |
| `Decimals.Subtract` | src/function/vector_arithmetic_functions.cpp:517-529 | likewise for the difference |
| `Decimals.SumParamsAre` | src/function/vector_arithmetic_functions.cpp:507-514 | the type of a sum has a digit more than the operands, behind the decimal point, or 38 digits and the larger scale |
| `Decimals.SumExactly` | src/function/vector_arithmetic_functions.cpp:490-514 | both operands fit that type, and the sum is exact, or refused if and only if it has more integer digits than the operands |
| `Decimals.FullSumExactly` | src/function/vector_arithmetic_functions.cpp:490-514 | with 38 digits in use already the sum is exact if and only if both rescaled operands and the sum have at most 38 digits, and refused otherwise |
| `Decimals.SumValue` | src/function/vector_arithmetic_functions.cpp:490-514 | the value of a sum that is not refused, taken at the scale of its type, is the sum of the values |
| `Decimals.CarryFits` | src/function/vector_arithmetic_functions.cpp:507-514 | with the larger scale of the operands and one digit more every sum fits |
| `Decimals.NinePlusNine` | src/function/vector_arithmetic_functions.cpp:507-514 | 9 + 9 as decimals of one digit is refused |
| `Decimals.Multiply` | src/function/vector_arithmetic_functions.cpp:541-563 | with the precision of the product as result type the product is exact and the overflow check never fails |
| `Decimals.MultiplyValue` | src/function/vector_arithmetic_functions.cpp:541-563 | the value of the product, taken at the scale of its type, is the product of the values, and fits the precision of its type |
| `Decimals.MultiplyRefused` | src/function/vector_arithmetic_functions.cpp:554-558 | the type of a product has the digits of both operands and one more, and is refused exactly when these are more than 38 |
| `Decimals.Floor` | src/function/vector_arithmetic_functions.cpp:632-648 | the greatest integer not above the decimal, for negative ones too, in range for the result type, with every intermediate in the storage type |
| `Decimals.Ceil` | src/function/vector_arithmetic_functions.cpp:653-669 | the least integer not below the decimal, in range for the result type |

## Left out

- Concurrent writers: the runs have one writer at a time, which is the default; drop and alter make no conflict check.
- CatalogSteps.RenameSteps: renames in runs are to names that are free for the writer, as the ALTER operator sees to before it reaches the catalog.
- SemiMask.SemiMasksPreserveRows: the condition on the plan is sufficient and not shown to be necessary, because an operator that is not transparent may happen to keep its rows.
- Semi masks of recursive extends, intersections, path property probes and COUNT joins, and the estimates that choose between the two directions.
- PushDownExact.PushDownExactly: predicates are deterministic and cannot fail; a product with a mark that becomes a join is covered only directly below filters, because what the operators above make of a missing mark is not modelled.
- Plans.EvaluableColumns: the expressions in the scope of a schema are plain columns; a computed expression that is itself in scope is not modelled.
- FilterPushDown.CollectJoinConditions: likewise, only plain columns become join keys.
- The other optimizer passes (limit push-down, factorization, join removal, cardinality) and the physical operators.
- ListCast.CastList: lists of 64-bit integers of any depth only; strings, maps, structs, unions, fixed-size arrays and unbraced lists are not modelled.
- ListCast.CopyStringToVector: likewise, 64-bit integers and lists of them only.
- NestedHash.EqualRowsHashAlike: rows with NULL structs are excluded, because they hash by their fields.
- NestedHash.HashStructs: NODE and REL values, which hash by their ID, are not modelled; hashes are numbers of any size, of which 64-bit ones are a special case.
- Scalars are integers with one hash function; floating point, strings and dates are not modelled.
- NullMasks.CopyNullMask: words are sequences of 64 bits on which the word operations are defined bit by bit; source and destination are different arrays.
- Md5: bytes of a word are in little-endian order, as on the supported machines; that the 64 numbers of the sine table are those of the sine function is not proved.
- Find.FindFirst: the needle is not empty; the SQL wrapper computes a result for the empty needle and then overwrites it.
- Slices.EvaluateSlices: what a lambda function does with a slice is not modelled, and sorting is any sort by offset.
- CaseEvaluation.Select: a WHEN evaluator is taken to select exactly the rows of the result for which its value is true.
- ClientTransactions: rollback in the transaction manager is taken not to fail; parsing, binding and running are outcomes.
- Decimal division and modulo, and casts of decimals to smaller scales.
- The storage engine, WAL, buffer manager, parser, binder, C API and extensions.
