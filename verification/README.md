# Ferrite, modelled and proved

Ferrite is a PostgreSQL-like database engine. This project models the parts of it whose correctness
does not depend on devices, and proves what they promise.

- **Storage.** A B+-tree over slotted 8 KiB pages is a finite map with ordered seek, and it owns each
  of its pages once. The tree is described level by level (`BTreeModel`, `BTreeShape`,
  `BTreeInvariant`); the operations are imperative, over a `Pager` that hands out and takes back pages
  (`Paging`). The slotted page itself is a byte array changed in place (`SlottedPage`), written to disk
  under a CRC-32C (`Crc`, `PageFile`).
- **Queries.** Expressions under three-valued logic with errors (`Exprs`, `Evaluation`), name
  resolution and binding (`Scopes`), plans and the rows they stand for (`Plans`). Proved over them:
  predicate pushdown keeps every plan's output, the grouping rewrite keeps every expression's value,
  type inference is sound, the join loop and the aggregation pass compute what they are said to.
- **The parser.** Precedence climbing under a depth budget (`Syntax`, `Parsing`), and why tokens have
  one reading only (`Reading`).
- **Dates.** Day numbers and the proleptic Gregorian calendar, timestamps and their text (`Calendar`,
  `Timestamps`, `TimestampText`).
- **State machines.** The extended-query session (`Session`, `SessionRuns`, `Connections`; section
  55.2.3, Extended Query, of the PostgreSQL 16 manual), the authentication throttle (`Throttle`,
  `ThrottleRuns`), and the system catalog with the storage under it (`Memory`, `Catalog*`).

What the engine takes from its surroundings is a parameter: case mapping, hexadecimal text of strings,
float text, clocks and random bytes (`Scalars.Runtime`), float text for stored defaults
(`CatalogRows.Host`), the answers of the statement handler (`Session.Reply`), the range check on
numeric literals (`Parsing.Parser.inRange`). Floating point is modelled by real numbers.

`dafny verify dfyconfig.toml` checks everything.

## Findings

Some promises do not hold of the code. Each is kept as the code has it, with an input on which it
fails and the exact condition under which it holds.

- **An emptied leaf can refuse an upsert.** Removing an item leaves its bytes as a hole, and inserting
  never compacts. `BTreeRun.FillAndEmpty`: on a new tree, four payloads of the largest inline size and
  one of 103 bytes are upserted and removed again, and the empty tree then refuses every payload of
  eight bytes or more. `BTreeUpsert.Upsert`: apart from running out of pages, an upsert fails exactly
  when the key's leaf is jammed, that is, has no cells at all and no room for the item either.
- **A refused upsert can lose pages.** The overflow chain is written before the leaf is tried.
  `BTreeRun.FillAndEmpty` with a payload that does not fit inline: its pages stay in use and no tree
  owns them. `BTreeUpsert.Upsert`: an upsert refused on a jammed leaf leaves the pages in use as they
  were exactly when the payload fits inline.
- **A payload of 2^32 bytes or more cannot be read back.** The descriptor keeps 32 bits of its length.
  `BTreeRead.Lookup` and `BTreeSeek.Seek` give back exactly the payloads below that length and report a
  length mismatch for the others.
- **An outer join against an empty side loses its padding.** The loop pads by the width of the first
  row it sees. `Joins.APaddingLost`: a left join of one row with no rows. `Joins.LoopIsTheJoin`: the
  loop yields the declared join exactly when no preserved row meets an empty side that has columns.
  `LostPadding.OptimizingLosesPadding`: a left join whose condition is about its right side only is
  padded when executed as it stands, and not after optimisation.
- **A literal beside a group key loses its coercion.** A text literal next to a uuid, timestamp or json
  column is parsed; next to the slot that replaces a group key it is not. `Grouping.CoercionLost`: a
  timestamp key compared with a date. `Grouping.ComparisonRewritten`: such a comparison keeps its value
  exactly when the row's value is null or the literal is not one that is parsed.
- **Timestamps before the year 0 do not read back.** `TimestampText.AYearTooEarly`: the last day of the
  year -1. `TimestampText.TimestampRoundTrip`: printing and reading back is the identity exactly when
  the year is not negative.
- **The type of a CASE is that of its first branch, and of a `coalesce` that of its first argument.**
  `Inference.AMixedCase`: a CASE whose ELSE is a text is inferred to be an integer.
  `Inference.AMixedCoalesce`: `coalesce(NULL, 1)` is inferred to be a text. `Inference.InferenceExact`:
  where its operands fit their types, such an expression fits its own exactly when what it gives back
  is null or comes from an operand of that type.
- **An index name is refused across schemas.** The check looks in one schema; the stored unique key
  does not mention it. `Catalog.NameTaken`: in a new database, an index `i` in schema `a` shuts the name
  out of schema `b`. `CatalogSteps.RefusedLater`: an index that passes the check is refused exactly when
  one of another schema bears its name.
- **Adding months and taking them away again** is not always the identity.
  `Timestamps.LastOfJanuary`: 31 January plus and minus a month. `Timestamps.ThereAndBack`: it is the
  identity exactly when the month reached has that day.
- **Attempts that overlap get past the throttle's ration.** A check made before an earlier attempt is
  answered does not know of its failure. `ThrottleRuns.OverlapExceeds`: two attempts checked together,
  with one failure allowed. `ThrottleRuns.WindowHolds` and `ThrottleRuns.LateWasInFlight`: the failures
  in a window beyond the ration are answers to attempts in flight when the address or user was locked.

## Model

| member | source | states |
|---|---|---|
| `BTreeRun.RunAll` | crates/ferrite-storage/src/btree.rs:83-442 | any run of upserts and removes on a new tree that gets through leaves exactly the map it describes, in new pages of its own, all others as before; it fails only for want of pages or on a jammed leaf |
| `BTreeUpsert.Upsert` | crates/ferrite-storage/src/btree.rs:251-292 | the map gains the key with its payload and pages are exchanged exactly; out of pages apart, it fails exactly on a jammed leaf; the tree is then as it was, and so are the pages in use exactly when the payload fits inline |
| `BTreeWrite.Remove` | crates/ferrite-storage/src/btree.rs:430-442 | never fails; answers whether the key was there, the map loses it, its overflow pages come back |
| `BTreeWrite.Create` | crates/ferrite-storage/src/btree.rs:83-87 | a tree of one new page holding the empty map |
| `BTreeRead.Lookup` | crates/ferrite-storage/src/btree.rs:237-249 | the payload the map has under the key, inline or gathered from its chain, or none; a length mismatch for payloads of 2^32 bytes or more |
| `BTreeRead.Descend` | crates/ferrite-storage/src/btree.rs:114-136 | never fails: reaches the one leaf responsible for the key, recording the nodes on the way |
| `BTreeRead.SlotSearch` | crates/ferrite-storage/src/btree.rs:89-102 | on rising keys, the slot of the key or the only place it could be inserted |
| `BTreeSeek.Seek` | crates/ferrite-storage/src/btree.rs:446-474 | the least stored key at or above the bound, with its payload, found along the leaf chain; a length mismatch for payloads of 2^32 bytes or more |
| `BTreeSeek.SoughtUnique` | crates/ferrite-storage/src/btree.rs:446-474 | a seek has only one right answer |
| `BTreeDestroy.Destroy` | crates/ferrite-storage/src/btree.rs:477-507 | frees the nodes and overflow pages of the tree, all of them and no others, and cannot meet an unexpected page |
| `BTreeDepth.DepthBound` | crates/ferrite-storage/src/btree.rs:39-41 | every node branches into distinct page ids, so a tree is at most 33 levels deep and the descent limit is never reached |
| `BTreeFill.ChooseSplit` | crates/ferrite-storage/src/btree.rs:309-328 | what a leaf held plus one item is cut so that both halves fit a page |
| `BTreeUpsert.SplitLeaf` | crates/ferrite-storage/src/btree.rs:294-330 | the leaf becomes two neighbours holding the old cells and the new one, with one entry pending for the level above; the corruption errors cannot happen |
| `BTreePropagate.FindSeparator` | crates/ferrite-storage/src/btree.rs:361-369 | a promoted separator is never already in the parent, and the search finds its place |
| `BTreePropagate.SplitInternal` | crates/ferrite-storage/src/btree.rs:383-408 | a full node is cut around its middle item, whose key goes up |
| `BTreePropagate.Propagate` | crates/ferrite-storage/src/btree.rs:354-381 | the pending entry is absorbed on the way up, growing a new root if need be, and the result is a whole tree again |
| `BTreeOverflow.WriteOverflow` | crates/ferrite-storage/src/btree.rs:138-156 | a chain of new pages spelling the data |
| `BTreeOverflow.ReadOverflow` | crates/ferrite-storage/src/btree.rs:158-182 | a chain reads back as what was written, its length checked against the descriptor |
| `BTreeOverflow.FreeOverflow` | crates/ferrite-storage/src/btree.rs:184-193 | gives back exactly the chain's pages |
| `BTreeRun.FillAndEmpty` | crates/ferrite-storage/src/btree.rs:251-308 | a new tree filled and emptied again holds nothing and refuses every payload of eight bytes or more; one with overflow pages loses them |
| `Paging.Pager.AllocPage` | crates/ferrite-storage/src/pager.rs:369-392 | a page not in use, blank, or none exactly when there is none left |
| `Paging.Pager.FreePage` | crates/ferrite-storage/src/pager.rs:394-406 | the page is no longer in use and heads the free list |
| `PageImage.ReplaceExactly` | crates/ferrite-storage/src/page.rs:314-332 | a replacement succeeds exactly when the length stays or the page, compacted, has room; only that item changes |
| `PageImage.CompactReclaimsEverything` | crates/ferrite-storage/src/page.rs:336-345 | compaction keeps the items and leaves no byte wasted |
| `PageImage.InsertKeepsLayout` | crates/ferrite-storage/src/page.rs:271-296 | an item goes in exactly when its cost is at most the free space |
| `SlottedPage.Page.InsertItem` | crates/ferrite-storage/src/page.rs:279-296 | the bytes change into a page whose items are the old ones with the new at its place, or not at all |
| `SlottedPage.Page.RemoveItem` | crates/ferrite-storage/src/page.rs:298-311 | the slots close up and the items are the old ones without it |
| `SlottedPage.Page.ReplaceItem` | crates/ferrite-storage/src/page.rs:314-332 | the item is replaced, in place, by move or after compaction, or every byte is as before |
| `SlottedPage.Page.CompactItems` | crates/ferrite-storage/src/page.rs:336-345 | never overflows; the items keep their order and the holes are gone |
| `SlottedPage.ViewWellFormed` | crates/ferrite-storage/src/page.rs:153-175 | items that lie apart below the page's end fit it, slots included |
| `PageFile.ValidateLayout` | crates/ferrite-storage/src/page.rs:153-175 | accepts exactly the layouts whose slots and items stay inside the page |
| `PageFile.FromBytes` | crates/ferrite-storage/src/page.rs:116-142 | loads a page or reports which check it failed, in the engine's order |
| `PageFile.RoundTrip` | crates/ferrite-storage/src/page.rs:116-185 | every page the slotted operations produce is written and read back with its contents |
| `PageFile.OneByteRejected` | crates/ferrite-storage/src/page.rs:116-185 | an image that differs from a written page in one byte, wherever it is, is rejected |
| `Crc.Crc32c` | crates/ferrite-storage/src/crc.rs:32-38 | the table-driven loop computes the bit-at-a-time checksum of section 12.1 of RFC 3720 |
| `Crc.BuildTable` | crates/ferrite-storage/src/crc.rs:11-28 | each entry is the register after eight shifts of its index |
| `Crc.StepInjective` | crates/ferrite-storage/src/crc.rs:32-38 | taking in a byte is injective in the register and in the byte |
| `Crc.OneByteChanges` | crates/ferrite-storage/src/crc.rs:32-38 | strings that differ in one byte have different checksums |
| `Optimizer.OptimizeMeans` | crates/ferrite-planner/src/rules.rs:12-226 | the optimised plan lowers to the same scope and puts out the same rows in the same order, or fails alike, for all five join types |
| `Optimizer.PushMeans` | crates/ferrite-planner/src/rules.rs:29-133 | pushing predicates into any plan is filtering what it puts out |
| `Optimizer.ColumnsSortSafe` | crates/ferrite-exec/src/executor.rs:963-1024 | sorting by columns never fails on rows of the declared types |
| `JoinFilters.JoinTraded` | crates/ferrite-planner/src/rules.rs:165-212 | a fair exchange of filters above, beside and below a join leaves its rows and their order |
| `JoinPushdown.TradeFair` | crates/ferrite-planner/src/rules.rs:165-212 | the exchange made for each join type is fair |
| `Pushdown.DealJoin` | crates/ferrite-planner/src/rules.rs:165-212 | the two loops deal every conjunct to the side, the condition or above, in order |
| `Sides.LeftReads` | crates/ferrite-planner/src/rules.rs:135-163 | a conjunct of the left side has, there, the value it has on the joined row |
| `Sides.RightReads` | crates/ferrite-planner/src/rules.rs:135-163 | a conjunct of the right side has, there, the value it has on the joined row |
| `Conjuncts.SplitMeans` | crates/ferrite-planner/src/logical.rs:187-206 | a conjunction holds when all its parts do |
| `Conjuncts.CombineMeans` | crates/ferrite-planner/src/logical.rs:208-220 | the parts recombined hold when all of them do |
| `Conjuncts.SplitInto` | crates/ferrite-planner/src/logical.rs:193-206 | appends the conjuncts of an expression to a list, left to right |
| `Conjuncts.CombineConjunction` | crates/ferrite-planner/src/logical.rs:208-220 | folds a list into one conjunction, left-deep, and nothing into none |
| `PlainPredicates.PlainIsSafe` | crates/ferrite-exec/src/eval.rs:13-123 | column tests against literals of their type, LIKE on text, IS NULL, and their AND, OR and NOT never fail on rows of the declared types |
| `Sorting.SortKept` | crates/ferrite-exec/src/executor.rs:963-1024 | sorting is in order, and filtering before or after a stable sort is the same |
| `Relocation.Relocated` | crates/ferrite-planner/src/physical.rs:121-205 | an expression bound in two scopes that agree on its columns has one value |
| `Joins.NestedLoopJoin` | crates/ferrite-exec/src/executor.rs:898-951 | the loop with its flags yields matches in nested order, each unmatched preserved row padded once, unmatched right rows last, or stops at the first failing pair |
| `Joins.LoopIsTheJoin` | crates/ferrite-exec/src/executor.rs:898-951 | that is the join by declared widths exactly when no row is padded against an empty side |
| `Joins.APaddingLost` | crates/ferrite-exec/src/executor.rs:905-906 | a left join with no right rows comes out too narrow |
| `Executor.LoopSucceeds` | crates/ferrite-exec/src/executor.rs:898-951 | a pass without errors puts out the join a plan stands for exactly when no padding was lost |
| `Executor.LoopFails` | crates/ferrite-exec/src/executor.rs:898-951 | a pass that fails does so with the error that join is said to fail with |
| `Executor.FilterLosesPadding` | crates/ferrite-exec/src/executor.rs:898-951 | a filter sunk into the padded side can empty it and lose the padding |
| `Executor.RunJoin` | crates/ferrite-exec/src/executor.rs:898-951 | rows or error, the loop's outcome is the join by first widths |
| `Execution.ExecutedMeans` | crates/ferrite-exec/src/executor.rs:334-460 | executing a plan with that loop puts out the rows it stands for when no join loses padding |
| `LostPadding.OptimizingLosesPadding` | crates/ferrite-planner/src/rules.rs:165-212 | a left join on a test of its right side is padded as it stands and left too narrow once optimised |
| `Execution.OptimizedRun` | crates/ferrite-planner/src/rules.rs:12-26 | so does executing the optimised plan, for the plan it came from |
| `AccessPath.Choose` | crates/ferrite-planner/src/planner.rs:853-896 | the first conjunct an index can answer, or none can |
| `AccessPath.FallbackIsFilter` | crates/ferrite-exec/src/executor.rs:492-541 | scanning with the probe and the residual keeps the rows of the full filter |
| `Grouping.RewriteMeans` | crates/ferrite-planner/src/lower.rs:581-646 | an accepted expression, its keys replaced by slots, has on the output row the value it has on the group's rows |
| `Grouping.GroupMeans` | crates/ferrite-planner/src/planner.rs:145-180 | for every group and every row of it, with each aggregate call its fold over the group |
| `Grouping.ComparisonRewritten` | crates/ferrite-planner/src/physical.rs:207-227 | a comparison of a column with a literal survives the rewrite exactly when the value is null or the literal is not parsed |
| `Grouping.CoercionLost` | crates/ferrite-planner/src/physical.rs:207-243 | a timestamp key compared with a date is true before the rewrite and a type error after it |
| `Aggregates.RunAggregate` | crates/ferrite-exec/src/aggregate.rs:19-78 | groups come out once each, in order of first appearance, each with the fold of every call over its rows, or the first failing row stops it |
| `Summaries.AggregateMeans` | crates/ferrite-exec/src/aggregate.rs:84-171 | the fold is the count, sum, mean or extreme of the values that count, and null where none does |
| `Summaries.CountStarMeans` | crates/ferrite-exec/src/aggregate.rs:99-171 | `count(*)` counts rows |
| `Executor.PassIsGroups` | crates/ferrite-exec/src/aggregate.rs:19-78 | the hash pass puts out what a plan's aggregate stands for |
| `Executor.RunGroups` | crates/ferrite-exec/src/aggregate.rs:19-78 | rows or failure, the pass ends as the plan's aggregate is said to end |
| `Inference.InferenceSound` | crates/ferrite-planner/src/physical.rs:245-332 | where the results of every CASE and the arguments of every coalesce agree on a type, an expression that evaluates gives null only where inferred nullable, else a value of the inferred type, on every row |
| `Inference.InferenceExact` | crates/ferrite-planner/src/physical.rs:245-332 | with settled operands, an expression fits its inferred type exactly when what its CASE or coalesce gives back is null or from an operand of that type |
| `Inference.SettledSound` | crates/ferrite-planner/src/physical.rs:245-332 | on a row where that holds at every CASE and coalesce, inference is right, whatever the other branches are |
| `Inference.CoalesceExact` | crates/ferrite-exec/src/scalar.rs:12-35 | a coalesce of fitting arguments fits exactly when the first that is not null has the first one's type |
| `Inference.AMixedCase` | crates/ferrite-planner/src/physical.rs:245-313 | a CASE of mixed types breaks it |
| `Inference.AMixedCoalesce` | crates/ferrite-planner/src/scalar.rs:102-115 | so does a coalesce whose first argument is a null literal |
| `PlanTypes.PlanConforms` | crates/ferrite-planner/src/physical.rs:334-382 | every row a plan puts out has the types and nullability of its output columns, aggregates included |
| `Balanced.BalancedOr` | crates/ferrite-planner/src/lower.rs:455-471 | halving a disjunction gives the value, or the error, of the left-to-right chain on every row |
| `Balanced.BalancedAnd` | crates/ferrite-sql/src/parser.rs:1161-1193 | the same for conjunctions |
| `Balanced.FoldedHeight` | crates/ferrite-planner/src/lower.rs:455-471 | halving 2^k tests adds at most k levels |
| `Balanced.BuildValueTest` | crates/ferrite-exec/src/subquery.rs:157-189 | builds that tree of equalities, negated or not, and a constant for no values |
| `Balanced.ValueTestHeight` | crates/ferrite-exec/src/subquery.rs:157-189 | a test against 2^k values stands at most k + 2 levels above what it tests |
| `Balanced.InMeans` | crates/ferrite-exec/src/subquery.rs:157-189 | the test decides three-valued membership, or its negation |
| `Balanced.MemberDecided` | crates/ferrite-exec/src/eval.rs:59-76 | the first member that equals, or cannot be compared, decides |
| `Balanced.MemberUndecided` | crates/ferrite-exec/src/eval.rs:59-76 | otherwise the answer is unknown exactly when a null is involved |
| `Ordering.CompareChains` | crates/ferrite-exec/src/eval.rs:287-313 | comparison is transitive over comparable values |
| `Ordering.CompareFlips` | crates/ferrite-exec/src/eval.rs:287-313 | comparing the other way round reverses the answer |
| `Ordering.EqualIsSame` | crates/ferrite-exec/src/eval.rs:287-313 | values of one type that compare equal are the same value |
| `Like.LikeMatches` | crates/ferrite-exec/src/eval.rs:239-282 | backtracking to the last `%` only decides LIKE as defined by recursion, escapes and a trailing backslash included |
| `Parsing.ParseWhole` | crates/ferrite-sql/src/parser.rs:1109-1507 | a parsed expression spells the tokens it was read from, is grouped as the precedences say, and is at most 2550 + 100 log2(tokens) levels high |
| `Reading.Unambiguous` | crates/ferrite-sql/src/parser.rs:1109-1507 | two trees grouped as the precedences say that spell the same tokens are the same tree, but for how runs of AND and of OR nest: what a parse returns is the only thing its tokens can mean |
| `Parsing.Parser.ParseSubexpr` | crates/ferrite-sql/src/parser.rs:1113-1146 | on success the depth counter is restored, the next operator binds no tighter than asked, and the height stays within what the remaining budget allows; recursion never exceeds the limit |
| `Parsing.Parser.ParseBooleanRun` | crates/ferrite-sql/src/parser.rs:1161-1193 | a run of AND or OR becomes one tree, its operands in order, higher than them by the logarithm of the token count only |
| `Parsing.Parser.ParseInfix` | crates/ferrite-sql/src/parser.rs:1226-1327 | extends the left operand by one operator and what stands on its right, one level higher |
| `Parsing.Parser.ParsePrefixInner` | crates/ferrite-sql/src/parser.rs:1336-1433 | reads one operand, parenthesised, prefixed, called or named |
| `Syntax.BoundClosed` | crates/ferrite-sql/src/parser.rs:10-10 | the height a budget of 2n allows is n(n + 1) plus 2n times the logarithm |
| `Calendar.CivilBack` | crates/ferrite-common/src/datetime.rs:20-44 | a date to its day number and back is the date |
| `Calendar.DaysBack` | crates/ferrite-common/src/datetime.rs:20-44 | a day number to its date and back is the number, and the date is a real one |
| `Calendar.NextDayAdvances` | crates/ferrite-common/src/datetime.rs:20-29 | the day after a date has the next number |
| `Calendar.OrderKept` | crates/ferrite-common/src/datetime.rs:20-29 | earlier dates have smaller numbers |
| `Timestamps.PartsBack` | crates/ferrite-common/src/datetime.rs:46-59 | a timestamp is what its parts add up to |
| `Timestamps.MicrosBack` | crates/ferrite-common/src/datetime.rs:46-59 | a real date and time are what their timestamp splits into |
| `Timestamps.AddMonthsLands` | crates/ferrite-common/src/datetime.rs:167-182 | adding months lands in that month, the day cut to its length, at the same time of day |
| `Timestamps.ThereAndBack` | crates/ferrite-common/src/datetime.rs:167-182 | adding and taking away months is the identity exactly when the month reached has that day |
| `Timestamps.LastOfJanuary` | crates/ferrite-common/src/datetime.rs:167-182 | 31 January plus and minus a month is another day |
| `TimestampText.TimestampRoundTrip` | crates/ferrite-protocol/src/types.rs:262-271 | printing and reading back a timestamp is the identity exactly when its year is not negative |
| `TimestampText.AYearTooEarly` | crates/ferrite-common/src/datetime.rs:96-130 | the last day of the year -1 prints but does not read back |
| `SessionRuns.OneReadyEach` | crates/ferrite-protocol/src/session.rs:383-465 | in every run, each Sync, and each Query not skipped that is blank or that the handler comes back from, is answered by one ReadyForQuery, and nothing else is |
| `SessionRuns.ErrorThenReady` | crates/ferrite-protocol/src/session.rs:383-409 | an error response is the last frame before the next ReadyForQuery |
| `SessionRuns.PortalsAttached` | crates/ferrite-protocol/src/session.rs:508-577 | every portal names a live statement in every reachable state |
| `SessionRuns.PortalNeverDangles` | crates/ferrite-protocol/src/session.rs:579-704 | so describing or executing one never misses its statement |
| `SessionRuns.EachRowOnce` | crates/ferrite-protocol/src/session.rs:616-704 | however a result is fetched in pieces and whatever comes between, each row is delivered once, in order, and the closing tag counts them all |
| `SessionRuns.WholeAtOnce` | crates/ferrite-protocol/src/session.rs:616-704 | a result the first Execute exhausts was delivered whole |
| `Connections.Connection.Handle` | crates/ferrite-protocol/src/session.rs:383-409 | one message changes the session and appends frames as the value-level turn says |
| `ThrottleRuns.WindowHolds` | crates/ferrite-protocol/src/throttle.rs:138-227 | however checks and answers interleave, no window holds more failures that found their source unlocked than the policy allows |
| `ThrottleRuns.ShortLockout` | crates/ferrite-protocol/src/throttle.rs:138-227 | for every policy whose lockout is shorter than its window there is a run with one failure too many |
| `ThrottleRuns.ExcessIsLate` | crates/ferrite-protocol/src/throttle.rs:138-227 | what a window holds beyond that is late failures |
| `ThrottleRuns.LateWasInFlight` | crates/ferrite-protocol/src/throttle.rs:138-164 | a late failure answers an attempt that was in flight when its source was locked |
| `ThrottleRuns.SequentialWindow` | crates/ferrite-protocol/src/throttle.rs:138-227 | when no attempt is checked while another is in flight, no window holds more recorded failures than the policy allows |
| `ThrottleRuns.OverlapExceeds` | crates/ferrite-protocol/src/throttle.rs:138-227 | two attempts checked together record two failures where one is allowed |
| `ThrottleRuns.NothingForgotten` | crates/ferrite-protocol/src/throttle.rs:251-268 | for every policy and every interleaving, pruning and sweeping keep every failure still in the window |
| `ThrottleRuns.TableCapped` | crates/ferrite-protocol/src/throttle.rs:166-217 | the table never outgrows its cap |
| `Throttle.AuthThrottle.Check` | crates/ferrite-protocol/src/throttle.rs:138-164 | refuses with the longest lock of the two sources, or admits |
| `Throttle.AuthThrottle.RecordFailure` | crates/ferrite-protocol/src/throttle.rs:166-217 | records the failure for both sources, sweeping first if the table is full, and says how long to wait |
| `Throttle.AuthThrottle.RecordSuccess` | crates/ferrite-protocol/src/throttle.rs:219-230 | forgets the two sources and no other |
| `Catalog.SystemCatalog.CreateTable` | crates/ferrite-catalog/src/system.rs:401-432 | succeeds exactly when the definition is acceptable and ids remain; the cache agrees with the stored rows afterwards either way, and a failure changes neither |
| `Catalog.SystemCatalog.AddColumn` | crates/ferrite-catalog/src/system.rs:434-478 | the same for one more column |
| `Catalog.SystemCatalog.DropTable` | crates/ferrite-catalog/src/system.rs:480-493 | the same for a table with its columns and indexes; no other table's rows change |
| `Catalog.SystemCatalog.CreateIndex` | crates/ferrite-catalog/src/system.rs:495-538 | the same for an index, whose name must be new in every schema |
| `Catalog.SystemCatalog.DropIndex` | crates/ferrite-catalog/src/system.rs:540-550 | the same for an index that goes |
| `Catalog.SystemCatalog.Conclude` | crates/ferrite-catalog/src/system.rs:690-717 | a call that succeeds is committed; one that fails is taken back in storage and in the cache |
| `Catalog.SystemCatalog.Reload` | crates/ferrite-catalog/src/system.rs:366-388 | the cache rebuilt from the stored rows is the one they were written from, with the next id the least above all those in use |
| `Catalog.SystemCatalog.Bootstrap` | crates/ferrite-catalog/src/system.rs:339-352 | the catalog of an empty database describes its own three tables and nothing else |
| `Catalog.SystemCatalog.Reopen` | crates/ferrite-catalog/src/system.rs:354-364 | opening the same database again finds the same catalog |
| `Catalog.NewDatabase` | crates/ferrite-catalog/src/system.rs:339-352 | there is a database whose catalog agrees with it |
| `CatalogReload.Rebuild` | crates/ferrite-catalog/src/system.rs:624-688 | tables, columns, defaults and indexes come back from rows listed in any consistent order |
| `CatalogRows.DefaultReadsBack` | crates/ferrite-catalog/src/system.rs:118-167 | a default can be written down exactly when it is the clock, null or of the column's type, and then reads back as itself |
| `CatalogSteps.RefusedLater` | crates/ferrite-catalog/src/system.rs:787-830 | an index that passes the check is refused exactly when one of another schema has its name |
| `Catalog.NameTaken` | crates/ferrite-catalog/src/system.rs:495-538 | in a new database with a table in each of two schemas and an index on one, an index of that name on the other passes the check and is refused |
| `CatalogSteps.NameTakenElsewhere` | crates/ferrite-catalog/src/system.rs:787-830 | each step of that up to the last can be taken, and the last cannot |
| `Memory.MemoryStorage.Abort` | crates/ferrite-catalog/src/memory.rs:120-145 | undoing the log in reverse restores the tables as they were when the transaction began |
| `Memory.MemoryStorage.InsertUnique` | crates/ferrite-common/src/storage.rs:116-128 | inserts exactly when no stored row has the same non-null key |
| `Memory.CheckUnique` | crates/ferrite-common/src/storage.rs:155-182 | the scan finds a clash exactly when there is one |

## Left out

- Write-ahead log, recovery, MVCC visibility, the buffer pool and the storage engine around the tree: the `Pager` here is pages in memory with a free list.
- Row codec, version chains, commit bitmap, wire encoding of values, TLS, sockets, metrics, password hashing, settings: simple or not pure.
- Subqueries inside expressions: `Parsing` ends with an error where one begins, so the height bound is for expressions without them; set operations are not charged to the depth budget by the engine.
- Statements other than expressions in the parser, and the lexer: tokens are given.
- Parse errors carry a kind and not the engine's message and offset.
- Floating-point rounding, NaN, infinities: reals are used, and `CatalogRows.FloatsReadBack` asks only that a host's own floats print and parse back.
- Row budgets, statement timeouts, and the row identities that `UPDATE` and `DELETE` carry through plans.
- `INSERT`, `UPDATE`, `DELETE`, `ON CONFLICT` and procedures.
- `MemoryStorage::update`: the catalog never calls it.
- Correlated subqueries and `EXISTS`; an uncorrelated `IN (SELECT ...)` is modelled by the values it returned.
- Collation names other than the case-folding one.
- Sorting: the library's stable sort is modelled by insertion; what is proved is order, permutation and stability.
- Optimizer.OptimizeMeans: for plans whose predicates never fail on rows of the declared types and with no filter above a bare column list, which is how the planner builds them; reordering conjuncts changes which error is met first.
- Execution.OptimizedRun: one way only; an operator above a join can hide lost padding.
- Inference.InferenceSound: for CASE results and coalesce arguments that agree on a type, which can be decided without a row; `Inference.InferenceExact` has the exact condition on a row.
- Grouping.GroupMeans: for expressions without a text literal beside a uuid, timestamp or json key; `Grouping.ComparisonRewritten` has the exact condition for one comparison.
- ThrottleRuns.WindowHolds: for policies that allow at least one failure and whose lockout is at least the window; `ThrottleRuns.ShortLockout` shows that a shorter lockout always breaks it.
- Catalog.SystemCatalog.CreateTable: object ids are 32 bits wide; where none is left the model reports an error, and the engine's increment overflows. The same for `Catalog.SystemCatalog.CreateIndex`.
- BTreeRead.Descend: reads of a page always succeed; a failing device is not modelled.
- Parsing.Parser.ParseSubexpr: says what a successful parse means, and `Reading.Unambiguous` that it can mean nothing else; that every well-formed expression within the budget is accepted is not stated.
