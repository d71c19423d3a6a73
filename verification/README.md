# GistDB verification

A Dafny model of GistDB, a single-threaded columnar SQL engine, with proofs
that its fast paths agree with a simple reference meaning. A plan denotes a
sequence of rows; everything the engine does to be quick (rewriting plans,
evaluating columns at a time, hashing, skipping row groups, caching pages,
packing bytes) is shown to leave that sequence alone, or the exact condition
under which it does is given.

`dafny verify dfyconfig.toml` checks the whole project.

## How it is organised

- Queries: `Expressions`, `Typing`, `LogicalPlan`, `Grouping`, `Aggregates`
  give plans their meaning. `Pushdown`, `Placement`, `Pruning`, `Translation`,
  `Physical` and `Optimizer` follow a plan through the optimizer; the result is
  `Optimizer.OptimizeCorrectIff`. `Failures` says when an accepted query throws.
- Operators: `Chunks`, `Evaluator`, `KeyBytes`, `Keys`, `HashJoin`, `Aggregation`. Each
  operator is a state machine whose pulls together deliver a sequence given
  beforehand. `Engine` runs a whole operator tree on them.
- What they mean, said without the functions that compute it: `Orders` for
  strings and floats, `Operators` for expressions, `PlanMeaning` for plan nodes,
  `AggregateMeaning` and `GroupMeaning` for GROUP BY, `ZoneMeaning` for skipping,
  `EvictionOrder` and `WriteBack` for the buffer pool, `Formats` for bytes.
- Storage: `Bitmap`, `ZoneMaps`, `Layout`, `Insert` write row groups;
  `ScanCells`, `ScanPins`, `Scan`, `SeqScan` read them through `BufferPool`
  and `Replacer`; `RoundTrip` puts both together. `Disk` is the file.
- Formats: `ByteIO`, `Footer`, `Schema`, `Catalog`; `Durability` says what a
  reopened database still stores.
- FROM clauses: `Binder`; `FromClause` for what a comma join means and
  `KeptEqualities` for when that is its WHERE clause.
- `Session` goes from a bound query to its chunks over stored pages:
  `Session.ExecuteQuery` puts optimizer, operators and storage together.
- `Seqs` and `Types` hold sequences and machine values.

Exceptions are `None` or `false` results. A float is its 32-bit pattern, with
the IEEE order (NaN and signed zero included); what float arithmetic computes
is a parameter (`FloatUnit`), and every result holds for whatever it computes.
The file is a byte sequence; reads past its end fail. Validity bits are
handled by arithmetic: or-ing a one-bit mask adds it when the bit is clear.

## Where the code is not what one would expect

Each is proved, with the exact condition:

- A column-free HAVING conjunct over an aggregate without GROUP BY is pushed
  below it and can no longer remove the single output row
  (`Pushdown.PushdownPreservesRowsIff`, `Pushdown.FalseHavingIsLost`).
- HAVING over a column that is not grouped, and ON with both columns on one
  side of the join, are accepted, and planning throws
  (`Optimizer.OptimizesIff`).
- A FLOAT column compared with an INTEGER literal is accepted without
  promotion; when the comparison is all there is to a filter over a scan, it
  becomes a zone-map skip that throws as soon as there is a row group
  (`Physical.ScanThrowsIff`, `Failures.MistypedSkipThrowsIff`,
  `Failures.FusedComparisonIsFine`).
- Comparing or adding boolean results passes the type rules and throws on any
  chunk with rows (`Evaluator.Evaluate`, `Failures.BooleanOperandThrowsIff`).
- A boolean select item passes the binder and throws on any chunk
  (`Evaluator.ProjectChunk`, `Failures.BooleanItemThrowsIff`).
- A zone map over a float column that begins with a NaN hides every number of
  its row group from <, <=, > and >=; MIN and MAX then return that NaN
  (`ZoneMaps.FloatSkipSoundIff`, `Aggregates.FloatExtreme`). INSERT
  takes literals only, and none is a NaN.
- A row group whose VARCHAR column holds only empty strings cannot be written
  (`Insert.StoreRowGroup`).
- A VARCHAR scan fetches only the first page of the validity bitmap and reads
  past it for later columns (`Scan.AppendVarchar`, `RoundTrip.ScanInserted`,
  `RoundTrip.FourthVarcharColumn`). The model reports a failure there; the
  code goes on with whatever bytes follow the frame.
- The metadata blob can be overwritten by later page writes, exactly by those
  that end past its start (`Disk.BlobStableIff`, `Disk.BlobStableOverRunsIff`).
- Join equalities are not type-checked and keys are compared by their bytes:
  +0 does not join -0, a NaN joins itself, INTEGER 1065353216 joins FLOAT 1.0
  and INTEGER 1 does not, INTEGER 0 joins the empty string
  (`KeyBytes.KeyEqualMeans`, `FromClause.KeyEqualityIsValueEqualityIff`). With
  several ON equalities of mixed types, rows can join although none of the
  equalities holds (`KeyBytes.SameKeyIsCellsMatchIff`,
  `KeyBytes.CrossedExample`).
- Of the equalities between comma-joined tables, those that join no further
  table are dropped (`Binder.EveryEqualityUsedIff`,
  `Binder.SecondEqualityIsDropped`). That is harmless, over all tables, exactly
  when every equality compares two INTEGER or two VARCHAR columns and follows
  from those in force (`KeptEqualities.MeansWhereIff`).

## Model

| member | source | states |
|---|---|---|
| `Expressions.RebuildConjunction` | src/optimizer/predicate_utils.cpp:47-55 | The folding loop over conjuncts builds the left-deep AND of all of them, in order |
| `Expressions.PassesConjuncts` | src/optimizer/predicate_utils.cpp:13-45 | With null-propagating AND, a row passes a predicate exactly when it passes every flattened conjunct |
| `Expressions.PassesConjoin` | src/optimizer/predicate_utils.cpp:47-55 | A row passes the rebuilt AND exactly when it passes every conjunct given |
| `Expressions.ConjunctsOfConjoin` | src/optimizer/predicate_utils.cpp:29-55 | Extracting undoes rebuilding: the leaves of the AND are the leaves of its parts, in order and with multiplicity |
| `Expressions.EvalDependsOnRefs` | src/optimizer/predicate_utils.cpp:57-86 | An expression's value depends on nothing but the columns that CollectColumnRefs lists |
| `Expressions.IntArithmeticExact` | src/execution/expression_evaluator.cpp:82-96 | Integer arithmetic is exact when the result fits int32 (it wraps otherwise); a quotient misses only for the least integer divided by -1 |
| `Expressions.TruncDivExact` | src/execution/expression_evaluator.cpp:92-93 | Integer division truncates toward zero: the remainder is smaller than the divisor and has the dividend's sign |
| `Orders.StrLessIsLexicographic` | src/execution/expression_evaluator.cpp:145-163 | A string is less than another exactly when it ends, or has the smaller byte, where they first differ |
| `Orders.FloatOrderIsNumeric` | src/execution/expression_evaluator.cpp:145-163 | On IEEE patterns `<` and `==` are those of the numbers that sign, exponent and fraction stand for; +0 equals -0 and a NaN compares with nothing |
| `Orders.NaNIsPattern` | src/execution/expression_evaluator.cpp:145-163 | A NaN is a pattern with all exponent bits set and a fraction |
| `Operators.LeavesMean` | src/execution/expression_evaluator.cpp:15-51 | A column reference is its cell, a literal its value |
| `Operators.LogicMeans` | src/execution/expression_evaluator.cpp:190-246 | A condition of ANDs, ORs and NOTs is NULL exactly when some leaf has no truth value, and otherwise has its propositional value |
| `Operators.PassesOr` | src/execution/expression_evaluator.cpp:190-203 | OR passes exactly when one side does and the other has a truth value |
| `Operators.DeMorgan` | src/execution/expression_evaluator.cpp:190-246 | NOT of AND is OR of NOTs and the reverse, also with NULLs |
| `Operators.ComparisonNullIff` | src/execution/expression_evaluator.cpp:177-188 | A comparison is NULL exactly when it has not two strings or two numbers |
| `Operators.IntegersCompare` | src/execution/expression_evaluator.cpp:145-175 | On two integers each of the six comparisons is the one of its name |
| `Operators.StringsCompare` | src/execution/expression_evaluator.cpp:145-175 | On two strings each comparison is that of the lexicographic order |
| `Operators.FloatsCompare` | src/execution/expression_evaluator.cpp:145-175 | With a FLOAT on either side numbers compare by value; with a NaN only `!=` holds |
| `Operators.IntegerNullIff` | src/execution/expression_evaluator.cpp:113-129 | Integer arithmetic is NULL exactly for an operand that is no integer or a divisor of zero |
| `Operators.IntegersCombine` | src/execution/expression_evaluator.cpp:82-129 | In the range of INTEGER sums, differences and products are exact and quotients truncate toward zero |
| `Operators.FloatsCombine` | src/execution/expression_evaluator.cpp:98-143 | Float arithmetic is NULL exactly for an operand that is no number, and otherwise the operation of its name on the promoted operands |
| `Operators.CollectedIffMentioned` | src/optimizer/predicate_utils.cpp:57-77 | The columns collected from an expression are exactly those at its leaves |
| `Typing.BoundTypeIsResultType` | src/binder/type_coercion.cpp:35-62 | The type rules give every expression they accept the type its node announces |
| `Typing.ConjoinTyped` | src/optimizer/predicate_utils.cpp:47-55 | Rebuilding a conjunction keeps it a predicate, free of boolean operands exactly when its parts are |
| `Operators.AcceptedIff` | src/binder/type_coercion.cpp:35-62 | Exactly which operations the binder accepts: truth values for AND and OR, text compared with text only, no text in arithmetic; and their types |
| `Operators.NotAcceptedIff` | src/binder/type_coercion.cpp:64-69 | NOT takes a truth value only |
| `Operators.AcceptedIsTyped` | src/binder/type_coercion.cpp:35-69 | An accepted expression over typed columns gives NULL or a value of its type |
| `LogicalPlan.RowsWithinIds` | src/binder/logical_plan.cpp:36-56 | Every row a plan denotes has columns of the collected binding ids only |
| `PlanMeaning.ScanMeans` | src/execution/seq_scan_operator.cpp:67-101 | A scan gives the table's rows in order, cell by cell, under its binding |
| `PlanMeaning.FilterMeans` | src/execution/filter_operator.cpp:13-29 | A filter keeps exactly the rows whose condition is true, neither false nor NULL |
| `PlanMeaning.JoinHas` | src/execution/hash_join_operator.cpp:175-242 | A join gives the merged row of every pair without NULL keys and with equal key bytes |
| `PlanMeaning.JoinOnly` | src/execution/hash_join_operator.cpp:175-242 | It gives no other rows |
| `PlanMeaning.AnswerMeans` | src/execution/projection_operator.cpp:17-48 | The answer has one row for each row of the body, with the value of each select item in order |
| `Grouping.FilterCommutesWithGrouping` | src/optimizer/predicate_pushdown.cpp:91-102 | A filter that reads only the group key may run before grouping instead of after it: same groups, same aggregates, same order |
| `Grouping.GroupFoldOfImage` | src/optimizer/optimizer.cpp:216-261 | Grouping the physical images of rows gives the same groups and aggregates as grouping the logical rows |
| `GroupMeaning.AggregateMeans` | src/execution/aggregation_operator.cpp:168-210 | Each output row reports, in each cell, the function asked for over the argument's cells of exactly the rows that agree with it on the group-by columns |
| `GroupMeaning.OneGroupEach` | src/execution/aggregation_operator.cpp:168-210 | Every input row is in the group of exactly one output row; without GROUP BY there is one output row, also for no input |
| `GroupMeaning.NoEmptyGroup` | src/execution/aggregation_operator.cpp:180-202 | With GROUP BY every output row has an input row |
| `GroupMeaning.PlannedAsAsked` | src/optimizer/optimizer.cpp:216-261 | The planned aggregate has the query's functions, argument columns and types and group-by columns, in order |
| `Pushdown.SplitForJoin` | src/optimizer/predicate_pushdown.cpp:75-86 | The bucket loop: each conjunct goes left if the left ids cover it, else right if the right ids do, else stays, all in order |
| `Pushdown.SplitForAggregate` | src/optimizer/predicate_pushdown.cpp:92-100 | The eligibility loop keeps exactly the conjuncts over group-by columns for the input, the others above |
| `Pushdown.PlaceInto` | src/optimizer/predicate_pushdown.cpp:49-110 | The in-place recursion computes Placed, whose meaning is given by PlacedDenotes and PlacedIntoBody |
| `Pushdown.PushdownPredicates` | src/optimizer/predicate_pushdown.cpp:112-146 | The whole pass computes Rewritten, whose meaning is given by PushdownPreservesRowsIff |
| `Pushdown.JoinFilterSplits` | src/optimizer/predicate_pushdown.cpp:71-89 | Filtering a join equals joining the two filtered sides and filtering with the rest, as a sequence of rows |
| `Pushdown.PlacedDenotes` | src/optimizer/predicate_pushdown.cpp:49-89 | Placing conjuncts anywhere in a FROM tree denotes the tree's rows filtered by all of them |
| `Pushdown.PlacedIntoBody` | src/optimizer/predicate_pushdown.cpp:91-107 | The same above an Aggregate, unless it has no GROUP BY and a column-free conjunct fails |
| `Pushdown.PushdownPreservesRows` | src/optimizer/predicate_pushdown.cpp:112-140 | Predicate pushdown keeps the row sequence of every query body whose column-free HAVING conjuncts over a global aggregate hold |
| `Pushdown.PushdownPreservesRowsIff` | src/optimizer/predicate_pushdown.cpp:30-140 | Exactly when pushdown keeps the rows (HAVING over group-by columns): if and only if no column-free HAVING conjunct over an aggregate without GROUP BY fails |
| `Pushdown.FalseHavingIsLost` | src/optimizer/predicate_pushdown.cpp:91-102 | The concrete query whose answer changes: COUNT(*) without GROUP BY, HAVING 1 = 2 |
| `Pushdown.HavingIsAbsorbed` | src/optimizer/predicate_pushdown.cpp:91-102 | A HAVING over group-by columns disappears entirely into the aggregate's input, as later passes need |
| `Placement.PushdownConserves` | src/optimizer/predicate_pushdown.cpp:59-102 | The multiset of flattened conjuncts over all filters is the same before and after, for every plan |
| `Placement.WhereIsPushedDeep` | src/optimizer/predicate_pushdown.cpp:71-89 | For a WHERE over a filter-free join tree, no filter left above a join holds a conjunct that one side covers |
| `Placement.OneIntoJoin` | src/optimizer/predicate_pushdown.cpp:71-89 | A conjunct goes to the left input if it has all its columns, or none, else to the right if that has them, else on top of the join |
| `Placement.OneIntoAggregate` | src/optimizer/predicate_pushdown.cpp:91-102 | A conjunct goes below the aggregate exactly when it reads group-by columns only |
| `Placement.OneIntoFilter` | src/optimizer/predicate_pushdown.cpp:59-69 | Placed into a filter it is ANDed behind the condition; onto a scan it becomes a filter |
| `Placement.RewrittenTyped` | src/optimizer/predicate_pushdown.cpp:112-140 | Every condition of the rewritten plan still passes the type rules |
| `Pruning.OrdinalsFor` | src/optimizer/column_pruning.cpp:29-38 | The scan's loop, sort and unique give the needed ordinals |
| `Pruning.SplitRequired` | src/optimizer/column_pruning.cpp:46-66 | The join's loop hands each required column to the side that owns it |
| `Pruning.Propagate` | src/optimizer/column_pruning.cpp:23-93 | The whole pass computes Pruned |
| `Pruning.SortUniqueIncreasing` | src/optimizer/column_pruning.cpp:29-38 | Kept ordinals are strictly increasing |
| `Pruning.NeededOrdinalsMember` | src/optimizer/column_pruning.cpp:29-38 | An ordinal is kept exactly when some required column of that table has it |
| `Pruning.PrunedDenotes` | src/optimizer/column_pruning.cpp:23-87 | Pruning does not change the rows a FROM tree denotes |
| `PlanMeaning.PruningIsExact` | src/optimizer/column_pruning.cpp:22-94 | After pruning, a query without aggregate reads a column exactly when a condition, an equality or a select item names it |
| `PlanMeaning.AggregatePruningIsExact` | src/optimizer/column_pruning.cpp:68-79 | Below an aggregate, exactly when its groups, its arguments or the plan below name it |
| `Physical.FullScan` | src/execution/seq_scan_operator.cpp:67-116 | Without a skip condition a scan delivers every row of every row group, in order, cut to the scanned columns |
| `Physical.RuledOutGroupHasNoMatch` | src/execution/seq_scan_operator.cpp:25-53 | No row of a ruled-out row group satisfies the comparison, for every operator, with NULLs and all-null groups |
| `Physical.SkippingIsInvisible` | src/execution/seq_scan_operator.cpp:104-116 | A filter that rejects the rows of ruled-out groups selects the same row sequence with and without skipping |
| `Physical.ScanThrowsIff` | src/execution/seq_scan_operator.cpp:27-31 | A scan with a skip condition throws exactly when there is a row group and the constant's type differs from the column's |
| `Translation.PositionIsPlace` | src/optimizer/optimizer.cpp:73-113 | FindColumnPosition is the place of the column in the physical layout, through nested joins with the build side first |
| `Translation.PositionedEval` | src/optimizer/optimizer.cpp:115-130 | The rewritten expression on the physical row has the value of the original on the logical row |
| `Translation.CollectJoinKeys` | src/optimizer/optimizer.cpp:193-206 | The key loop finds, per equality, the left column's probe position and the right column's build position, and throws exactly when one is missing |
| `Translation.TranslatePlan` | src/optimizer/optimizer.cpp:157-273 | The recursion with its loops computes Translate, which plans the functions and columns asked for (`GroupMeaning.PlannedAsAsked`) and simulates the plan (`Translation.FromTreeSimulates`, `Optimizer.AggregateSimulates`) |
| `Translation.FilteredScanSimulates` | src/optimizer/optimizer.cpp:132-186 | A filter over a scan with the extracted skip throws exactly when the zone-map test or the filter does, and otherwise delivers the logical rows, laid out physically |
| `Translation.JoinSimulates` | src/optimizer/optimizer.cpp:192-214 | A translated join delivers the logical join rows in order, build columns then probe columns; it throws exactly when a side does |
| `Translation.FromTreeSimulates` | src/optimizer/optimizer.cpp:157-214 | Every ready FROM tree translates; its operators throw exactly when the tree holds a mistyped zone-map test or a boolean operand that is handed rows, and otherwise deliver exactly its rows |
| `Optimizer.PrunedFinds` | src/optimizer/column_pruning.cpp:23-87 | After pruning, every required column is found by FindColumnPosition |
| `Optimizer.PrunedReady` | src/optimizer/column_pruning.cpp:23-87 | After pruning, a scoped FROM tree meets everything translation relies on |
| `Optimizer.PrunedTraffic` | src/optimizer/column_pruning.cpp:23-87 | Pruning moves no exception: the same row groups are skipped and the same operators throw |
| `Optimizer.AggregateSimulates` | src/optimizer/optimizer.cpp:216-261 | A translated aggregate delivers the logical groups, whose cells report the calls of the query (`GroupMeaning.AggregateMeans`), or throws when its input does |
| `Optimizer.OptimizeRuns` | src/optimizer/optimizer.cpp:277-283 | Optimizing a bound query never fails; the operators throw exactly when some zone-map test, filter or projection of the rewritten plan does, and otherwise deliver its projected rows |
| `Optimizer.OptimizesIff` | src/optimizer/optimizer.cpp:73-114 | Planning a bound query throws if and only if HAVING reads a column that is not grouped or a join equality has both its columns on one side |
| `Optimizer.OptimizeCorrectIff` | src/optimizer/optimizer.cpp:277-283 | For every bound query, join equalities of any types included, planning succeeds and the operators deliver the reference answer if and only if HAVING reads group-by columns, every join equality is two-sided, no operator throws and no column-free HAVING over an aggregate without GROUP BY fails |
| `Optimizer.OptimizeQuery` | src/optimizer/optimizer.cpp:277-283 | The three passes as code compute Optimize |
| `Failures.SafeQueryNeverThrows` | src/execution/expression_evaluator.cpp:154-175 | A query that compares or adds no boolean, selects no boolean and compares columns with literals of their own type throws on no database |
| `Failures.MistypedSkipThrowsIff` | src/optimizer/optimizer.cpp:132-155 | WHERE f > 1 on a FLOAT column passes the binder and throws exactly when the table has a row group |
| `Failures.FusedComparisonIsFine` | src/optimizer/optimizer.cpp:132-140 | The same comparison beside another conjunct is not extracted, and nothing throws |
| `Failures.BooleanOperandThrowsIff` | src/execution/expression_evaluator.cpp:154-175 | WHERE (a = 1) = (a = 2) passes the binder and throws exactly when some row is stored |
| `Failures.BooleanItemThrowsIff` | src/execution/projection_operator.cpp:36-46 | SELECT a = 1 passes the binder and throws exactly when the table has a row group |
| `ZoneMaps.ZoneMap.Update` | src/storage/zone_map.cpp:9-19 | Update in place follows std::min and std::max, first value first |
| `ZoneMaps.Build` | src/storage/column_footer_entry.cpp:6-18 | The Build scan counts the NULLs and folds the other cells into the zone map |
| `ZoneMaps.ZoneOfWellBuilt` | src/storage/zone_map.cpp:10-50 | Every map built by updates is ordered, with prefixes of at most eight bytes |
| `ZoneMaps.ZoneCovers` | src/storage/zone_map.cpp:10-30 | Every number of the column lies between the recorded ends, unless a NaN came first |
| `ZoneMaps.FloatEnds` | src/storage/zone_map.cpp:9-19 | The recorded ends are NaN exactly when the first float of the column is one |
| `ZoneMaps.RuledOutMeansNoMatch` | src/execution/seq_scan_operator.cpp:25-53 | A ruled-out column has no cell for which the comparison is true |
| `ZoneMaps.FloatSkipSoundIff` | src/execution/seq_scan_operator.cpp:25-53 | A float zone map never rules out a matching cell, for all operators and constants, if and only if no NaN came first or there is no number |
| `ZoneMeaning.IntEndsFound` | src/storage/column_footer_entry.cpp:6-18 | The ends of an INTEGER zone map are the least and greatest value stored |
| `ZoneMeaning.FloatEndsFound` | src/storage/column_footer_entry.cpp:6-18 | Those of a FLOAT zone map are the least and greatest number when a number comes first, and the NaN that comes first otherwise |
| `ZoneMeaning.StrEndsFound` | src/storage/column_footer_entry.cpp:6-18 | Those of a VARCHAR zone map are the lexicographically least and greatest prefix of eight bytes |
| `ZoneMeaning.IntRuledOutIff` | src/execution/seq_scan_operator.cpp:25-53 | An INTEGER column is ruled out exactly when it has values, the comparison is not `!=`, and nothing between the ends satisfies it |
| `ZoneMeaning.FloatRuledOutIff` | src/execution/seq_scan_operator.cpp:25-53 | So is a FLOAT column with numbers at its ends, except that `= NaN` rules out nothing |
| `ZoneMeaning.IntGroupSkippedIff` | src/execution/seq_scan_operator.cpp:104-116 | A row group is passed over exactly when nothing between its least and greatest stored value satisfies the comparison |
| `ZoneMeaning.SkipPlannedIff` | src/optimizer/optimizer.cpp:132-155 | A scan skips exactly under a filter that is `column op number` on its own table |
| `Aggregates.BestIsFirstBest` | src/execution/aggregate_accumulator.cpp:49-71 | For a strict weak order the running best is the earliest unbeaten value |
| `Aggregates.IntExtreme` | src/execution/aggregate_accumulator.cpp:49-54 | MIN and MAX of an INTEGER column are its least and greatest value, NULL exactly when there is none |
| `Aggregates.FloatExtreme` | src/execution/aggregate_accumulator.cpp:49-54 | MIN and MAX of a FLOAT column: the first value if that is a NaN, otherwise the earliest least or greatest of the numbers |
| `Aggregates.StrExtreme` | src/execution/aggregate_accumulator.cpp:59-71 | MIN and MAX of a VARCHAR column: a string present that no other precedes, or follows, lexicographically |
| `Aggregates.FoldSummarizes` | src/execution/aggregate_accumulator.cpp:7-71 | Feeding a group's values to the accumulator and emitting gives COUNT, SUM, AVG, MIN or MAX of those values; what each is, `AggregateMeaning.SummarizeReports` says |
| `AggregateMeaning.SummarizeReports` | src/execution/aggregate_accumulator.cpp:7-71 | COUNT is the number of non-NULL cells, SUM the exact sum (or the float unit's, in row order), AVG that over the number of addends, MIN and MAX an extreme value of the column, NULL exactly when there is no value |
| `AggregateMeaning.AccumulatorReports` | src/execution/aggregate_accumulator.cpp:7-71 | So is what an accumulator emits that was fed the cells one by one |
| `AggregateMeaning.NullsIgnored` | src/execution/aggregate_accumulator.cpp:11-71 | Wherever a NULL stands, it changes no result but COUNT(*) |
| `AggregateMeaning.CountAndNulls` | src/execution/aggregate_accumulator.cpp:7-15 | Below 2^31 cells, COUNT(column) and the number of NULLs add up to COUNT(*), the number of cells |
| `Chunks.AppendRow` | src/execution/hash_join_operator.cpp:81-132 | Appending a cell to every output column appends one row |
| `Evaluator.EvaluateArithmeticInt` | src/execution/expression_evaluator.cpp:113-129 | The two passes compute, row by row, null-propagating integer arithmetic with divide-by-zero NULL; wrong variants are met exactly on non-integer operands |
| `Evaluator.EvaluateArithmeticFloat` | src/execution/expression_evaluator.cpp:131-143 | The same for float arithmetic over mixed numeric operands |
| `Evaluator.EvaluateComparison` | src/execution/expression_evaluator.cpp:165-188 | Row by row the comparison of the two results, NULL when either is NULL; what it is, `Operators` says per type |
| `Evaluator.EvaluateLogical` | src/execution/expression_evaluator.cpp:190-203 | Row by row AND or OR of the two results, NULL when either is NULL; what it is, `Operators.LogicMeans` says |
| `Evaluator.EvaluateNot` | src/execution/expression_evaluator.cpp:232-246 | NOT keeps NULL and flips the rest |
| `Evaluator.Evaluate` | src/execution/expression_evaluator.cpp:214-270 | The vectorised evaluator agrees with the row-at-a-time one on every row, and throws exactly when the chunk has rows and a comparison or arithmetic has a boolean operand |
| `Evaluator.BooleanComparisonIsAccepted` | src/binder/type_coercion.cpp:35-62 | A typed expression that the type rules accept but the evaluator cannot run |
| `Evaluator.FilterChunk` | src/execution/filter_operator.cpp:13-29 | Masking the selection vector selects exactly the selected rows that pass; it throws exactly when the evaluator does |
| `Evaluator.ProjectChunk` | src/execution/projection_operator.cpp:17-48 | Every select item becomes a column of its values; it throws exactly on a boolean item, or on a boolean operand when the chunk has rows |
| `KeyBytes.KeyEqualMeans` | src/execution/hash_join_operator.cpp:53-79 | Two key values of any types match exactly when: strings are equal, numbers have the same 32 bits, a number against a string is all zero bits against the empty string; NULL matches nothing |
| `KeyBytes.NumbersMatchByBits` | src/execution/hash_join_operator.cpp:69-75 | INTEGER 1065353216 matches FLOAT 1.0, INTEGER 1 does not |
| `KeyBytes.SameTypesSameKey` | src/execution/hash_join_operator.cpp:53-79 | For equal types, equal serialised keys mean equal non-null key values |
| `KeyBytes.SameKeyIsCellsMatchIff` | src/execution/hash_join_operator.cpp:53-79 | For key columns of any types, equal keys mean matching values column by column, on all values, if and only if, where the sides first differ in being text, one of them is numbers only from there on |
| `KeyBytes.CrossedExample` | src/execution/hash_join_operator.cpp:53-79 | The smallest rows that join on two equalities of which neither holds |
| `Keys.ComputeJoinKey` | src/execution/hash_join_operator.cpp:53-79 | The key loop serialises the key cells, or gives no key when one is NULL |
| `Keys.JoinKeyEqualIffMatch` | src/execution/hash_join_operator.cpp:53-79 | Two rows have equal join keys exactly when each equality's key values are non-null and byte-equal, whenever the two sides' types read alike |
| `Keys.SerializeGroupKey` | src/execution/aggregation_operator.cpp:57-99 | The group-key loop serialises the cells and extracts the display values |
| `Keys.GroupKeyInjective` | src/execution/aggregation_operator.cpp:57-80 | Group keys serialise equally exactly when the tuples are equal, NULLs grouped together |
| `HashJoin.TableFindsMatches` | src/execution/hash_join_operator.cpp:156-232 | A probe row's bucket holds exactly its matching build rows, in build order |
| `HashJoin.BuildPhase` | src/execution/hash_join_operator.cpp:156-173 | The build loop stores the selected build rows with a key, in order, indexed by key |
| `HashJoin.FillChunk` | src/execution/hash_join_operator.cpp:175-242 | The resumable probe pays the next rows owed, at most 1024; it stops inside a match list only when the chunk is full |
| `HashJoin.HashJoinOperator.GetNext` | src/execution/hash_join_operator.cpp:147-242 | What was owed is this chunk followed by what is still owed; a chunk of fewer than 1024 rows finishes its probe chunk; there is no chunk exactly when no probe chunk is left; each call makes progress |
| `HashJoin.RunHashJoin` | src/execution/hash_join_operator.cpp:147-242 | Draining gives well-typed chunks of the nested-loop join: per selected probe row in order, per matching selected build row in order, build row then probe row; there is a chunk exactly when there is a probe chunk |
| `Aggregation.TracksSnoc` | src/execution/aggregation_operator.cpp:180-208 | One more row keeps the tally: groups once each in first-appearance order, each accumulator folding its group's rows |
| `Aggregation.Drain` | src/execution/aggregation_operator.cpp:168-209 | After draining, the tally describes exactly the selected input rows, with one group from the start when there is no GROUP BY |
| `Aggregation.EmitRowIsGroup` | src/execution/aggregation_operator.cpp:211-361 | The row emitted for the n-th group is its key followed by its aggregates |
| `Aggregation.AggregationOperator.GetNext` | src/execution/aggregation_operator.cpp:157-165 | Each batch is the next 1024 groups, or all that are left; there is no batch exactly when none is left |
| `Aggregation.RunAggregation` | src/execution/aggregation_operator.cpp:157-361 | The batches concatenate to group-then-fold of the input, one row for empty input without GROUP BY |
| `Aggregation.GroupCountsAddUp` | src/execution/aggregation_operator.cpp:180-208 | Every input row is a member of exactly one group |
| `Aggregation.CountStarsAddUp` | src/execution/aggregation_operator.cpp:287-293 | The emitted COUNT(*) cells of all groups add up to the number of input rows, in 32 bits, and exactly when that fits int32 |
| `Replacer.LruReplacer.RecordAccess` | src/storage/replacer.cpp:9-19 | The frame becomes more recent than every other, which keep their places; a new one starts out not evictable, a known one stays as it was |
| `Replacer.LruReplacer.SetEvictable` | src/storage/replacer.cpp:21-31 | Exactly the known frames can be marked, and the count follows |
| `Replacer.LruReplacer.Evict` | src/storage/replacer.cpp:33-45 | The victim is the evictable frame with the oldest access; there is none exactly when no frame is evictable |
| `Replacer.LruReplacer.Remove` | src/storage/replacer.cpp:47-59 | Removes exactly the given evictable frame; a frame in use is refused |
| `Replacer.RecordedSound` | src/storage/replacer.cpp:9-19 | List, positions and entries keep the same duplicate-free frame set in access order, with a correct evictable count |
| `Replacer.MarkedSound` | src/storage/replacer.cpp:21-31 | The same for marking |
| `Replacer.RemovedSound` | src/storage/replacer.cpp:33-59 | The same for eviction and removal |
| `Replacer.VictimIsOldest` | src/storage/replacer.cpp:33-45 | The first evictable list node has the oldest access time of all evictable frames |
| `BufferPool.FetchFailsIff` | src/storage/buffer_pool_manager.cpp:42-57 | FetchPage throws exactly when the page is not cached and every frame is pinned |
| `BufferPool.FetchCoherent` | src/storage/buffer_pool_manager.cpp:33-77 | Fetching keeps table and frames inverse, shows every page as before, evicts no pinned page, and adds one pin to this page only |
| `BufferPool.PinnedStaysPut` | src/storage/buffer_pool_manager.cpp:42-77 | A pinned page stays in its frame across any fetch |
| `BufferPool.UnpinCoherent` | src/storage/buffer_pool_manager.cpp:79-93 | Unpinning keeps the invariant and the view and takes back at most one pin, provided the last unpin after a change says dirty |
| `BufferPool.ChangeCoherent` | src/storage/buffer_pool_manager.cpp:42-93 | A change under a pin shows on that page and no other |
| `BufferPool.EveryRunShowsLastChange` | src/storage/buffer_pool_manager.cpp:33-93 | In every state of every run of fetches, unpins and changes, each page shows its last change |
| `BufferPool.FlushSavesView` | src/storage/buffer_pool_manager.cpp:23-31 | After the destructor's write-back the file holds what clients saw of every announced page |
| `EvictionOrder.EveryRunTimesFetches` | src/storage/buffer_pool_manager.cpp:42-77 | In every state of every run, the replacer's times order the cached pages as their last successful fetches do |
| `EvictionOrder.HitEvictsNothing` | src/storage/buffer_pool_manager.cpp:42-49 | Fetching a cached page changes nothing of what is cached |
| `EvictionOrder.EvictsLeastRecentlyFetched` | src/storage/buffer_pool_manager.cpp:34-77 | A miss drops no page while a frame is free, and otherwise exactly the unpinned page whose last fetch is oldest |
| `EvictionOrder.FreeUnlessInUse` | src/storage/buffer_pool_manager.cpp:34-40 | There is no free frame exactly when every frame holds a page |
| `WriteBack.DirtyIffAnnounced` | src/storage/buffer_pool_manager.cpp:51-94 | In every state of every run, a cached page is marked for write-back exactly when an unpin announced a change since it was read |
| `BufferPool.BufferPoolManager.FindFreeFrame` | src/storage/buffer_pool_manager.cpp:33-40 | The last free frame, else the replacer's victim |
| `BufferPool.BufferPoolManager.FetchPage` | src/storage/buffer_pool_manager.cpp:42-77 | The method computes Fetch and returns the page's frame; which page gives way, `EvictionOrder.EvictsLeastRecentlyFetched` says |
| `BufferPool.BufferPoolManager.UnpinPage` | src/storage/buffer_pool_manager.cpp:79-93 | The method computes Unpin |
| `BufferPool.BufferPoolManager.Flush` | src/storage/buffer_pool_manager.cpp:23-31 | The write-back loop leaves every announced page in the file |
| `ByteIO.WriteU32` | src/serialization/byte_io.cpp:11-15 | The shift-and-mask loop appends the four little-endian digits |
| `ByteIO.U32RoundTrip` | src/serialization/byte_io.cpp:11-44 | Reading a written u32 gives it back and leaves the rest |
| `ByteIO.U64RoundTrip` | src/serialization/byte_io.cpp:17-52 | The same for u64 |
| `ByteIO.StringRoundTrip` | src/serialization/byte_io.cpp:29-66 | The same for length-prefixed strings |
| `ByteIO.AllReadBack` | src/storage/footer.cpp:165-198 | A loop of readers undoes a loop of writers when each element's reader undoes its writer |
| `ByteIO.ByteReader.ReadU32` | src/serialization/byte_io.cpp:38-44 | The cursor reads four bytes and moves past them |
| `Disk.HeaderRoundTrip` | src/storage/file_header.cpp:18-40 | Parsing a serialised header gives back its fields |
| `Disk.EveryRunIsIntact` | src/storage/disk_manager.cpp:83-162 | In every state of every run of allocations, page writes and blob writes: extents follow one another past page 0, every written page reads back its last bytes, the file reopens to the same state |
| `Disk.ExtentsDisjoint` | src/storage/disk_manager.cpp:83-91 | Extents handed out are disjoint and never include page 0 |
| `Disk.BlobRoundTrip` | src/storage/disk_manager.cpp:129-162 | Reopening right after a non-empty blob write returns exactly that blob |
| `Disk.BlobSurvivesWritesBelow` | src/storage/disk_manager.cpp:93-162 | Page writes that end before the blob leave it alone, whatever they write |
| `Disk.BlobStableIff` | src/storage/disk_manager.cpp:93-162 | A page write leaves the blob alone for all contents if and only if it ends before the blob |
| `Disk.BlobStableOverRunsIff` | src/storage/disk_manager.cpp:83-162 | Over every run of allocations and page writes after a blob write, the blob reads back for all page contents if and only if every write ended before it |
| `Disk.BlobIsOverwritten` | src/storage/disk_manager.cpp:83-162 | The smallest case: writing the next allocated page replaces the blob |
| `Disk.DiskManager.Allocate` | src/storage/disk_manager.cpp:83-91 | Hands out the next pages and persists the header; zero pages are refused |
| `Disk.DiskManager.WriteAt` | src/storage/disk_manager.cpp:93-108 | Writes whole pages past page 0, refusing anything else |
| `Disk.DiskManager.WriteBlob` | src/storage/disk_manager.cpp:129-143 | Appends behind both the page region and the file's end and moves the metadata offset |
| `Formats.PagesLie` | src/storage/disk_manager.cpp:93-108 | Page p is the 4096 bytes from 4096 p on; a write changes no other byte |
| `Formats.PagesRead` | src/storage/disk_manager.cpp:110-127 | Reading gives exactly those bytes, and fails exactly for page 0, no pages, or pages past the end |
| `Formats.PagesNeeded` | src/execution/insert_executor.cpp:157-164 | Bytes take as few pages as hold them |
| `Formats.AllocationLies` | src/storage/disk_manager.cpp:83-91 | The next pages are handed out in order; asking for none is refused |
| `Formats.BlobLies` | src/storage/disk_manager.cpp:129-143 | The metadata blob lies behind both the pages handed out and the old end of the file, where the header then points, and ends the file |
| `Footer.Serialize` | src/storage/footer.cpp:165-178 | The nested writing loops produce EncodeFooter |
| `Footer.Deserialize` | src/storage/footer.cpp:180-198 | The nested reading loops compute DecodeFooter |
| `Footer.ShortPrefixExact` | src/storage/footer.cpp:28-34 | A prefix of at most eight bytes, zero bytes included, survives padding |
| `Footer.RebuiltIff` | src/storage/footer.cpp:109-137 | A column entry read back equals the one written exactly when its zone map is one that Update builds |
| `Footer.FooterReadsBack` | src/storage/footer.cpp:165-198 | The reader consumes exactly what the writer produced |
| `Footer.FooterRoundTripIff` | src/storage/footer.cpp:23-198 | Deserialize undoes Serialize if and only if every zone map is one that Update builds |
| `Schema.Serialize` | src/catalog/schema_section.cpp:59-72 | The writing loops produce EncodeSchema |
| `Schema.Deserialize` | src/catalog/schema_section.cpp:74-97 | The reading loops compute DecodeSchema, refusing an invalid type byte |
| `Schema.SchemaRoundTrip` | src/catalog/schema_section.cpp:59-97 | Next id, tables, columns, types and ordinals read back whole |
| `Catalog.SplitUndoesCombined` | src/catalog/catalog.cpp:15-44 | Splitting the blob gives back the schema section and the footer |
| `Formats.HeaderLayout` | src/storage/file_header.cpp:18-25 | The magic number, the metadata offset in bytes 8 to 15 and the next free page in 16 to 19, least significant byte first |
| `Formats.IntegerLayout` | src/storage/footer.cpp:45-54 | Tag, pages, null count, flag and, if set, least and greatest value of an INTEGER column, each in its place |
| `Formats.FloatLayout` | src/storage/footer.cpp:45-54 | The same for a FLOAT column |
| `Formats.VarcharLayout` | src/storage/footer.cpp:56-65 | Tag, both page ranges, null count, flag and padded prefixes of a VARCHAR column |
| `Formats.RowGroupLayout` | src/storage/footer.cpp:165-179 | Table id, row count, bitmap pages and number of columns, then the columns |
| `Formats.FooterLayout` | src/storage/footer.cpp:165-179 | The number of row groups, then the row groups |
| `Formats.ColumnDefLayout` | src/catalog/schema_section.cpp:17-21 | Name length, name, type byte and ordinal of a column definition |
| `Formats.TableLayout` | src/catalog/schema_section.cpp:59-72 | Table id, name and number of columns, then the columns |
| `Formats.SchemaLayout` | src/catalog/schema_section.cpp:59-72 | Next table id and number of tables, then the tables |
| `Formats.BlobLayout` | src/catalog/catalog.cpp:15-25 | The length of the schema section, that section, the footer |
| `Formats.UnknownTypeRefused` | src/catalog/schema_section.cpp:23-29 | A type byte above 2 is refused |
| `Formats.OpensIff` | src/storage/disk_manager.cpp:59-81 | A file opens exactly when it has a whole header with the magic number |
| `Catalog.GrownTable` | src/catalog/table_object.cpp:28-34 | Adding row groups works exactly for groups of the table's id, keeps their order and totals their rows in 64 bits |
| `Catalog.ReconstructRestores` | src/catalog/catalog.cpp:65-97 | Reconstruction restores next id, every schema, every table's row groups in order and its row total, whatever the iteration order was |
| `Catalog.PersistThenOpen` | src/catalog/catalog.cpp:58-97 | Closing and reopening the file gives back the same catalog |
| `Catalog.CreateConsistent` | src/catalog/catalog.cpp:99-107 | Creating a table keeps schema section and table map consistent |
| `Catalog.AddConsistent` | src/catalog/catalog.cpp:137-145 | So does adding a row group |
| `Catalog.CatalogManager.CreateTable` | src/catalog/catalog.cpp:99-107 | A new name gets the next id and is persisted; an existing one is refused and nothing changes |
| `Catalog.CatalogManager.AddRowGroup` | src/catalog/catalog.cpp:137-145 | Succeeds exactly for a known table and a row group of its id |
| `Catalog.CatalogManager.PersistMetadata` | src/catalog/catalog.cpp:89-97 | Writes schema and footer, iterating the table map in some order |
| `Catalog.CatalogManager.ReconstructFromDisk` | src/catalog/catalog.cpp:65-87 | The two loops compute Reconstructed, or throw |
| `Bitmap.SetBitBits` | src/storage/validity_bitmap.cpp:13-21 | Setting a bit of a byte changes that bit only |
| `Bitmap.ClearBitBits` | src/storage/validity_bitmap.cpp:13-21 | Clearing a bit of a byte changes that bit only |
| `Formats.RowIsBit` | src/storage/validity_bitmap.cpp:13-28 | Row i is bit i mod 8 of byte i / 8, counted from the least significant |
| `Bitmap.ValidityBitmap.SetValid` | src/storage/validity_bitmap.cpp:13-21 | Exactly the given row's validity changes |
| `Bitmap.ValidityBitmap.IsValid` | src/storage/validity_bitmap.cpp:23-27 | Reads the given row's validity |
| `Bitmap.ValidityBitmap.PushBack` | src/storage/validity_bitmap.cpp:33-40 | Appends one row, whatever the spare bits held |
| `Bitmap.ValidityBitmap.CountNulls` | src/storage/validity_bitmap.cpp:46-52 | Counts the invalid rows |
| `Layout.SerializeFixedWidth` | src/execution/insert_executor.cpp:23-32 | The loop writes the stored 32-bit words one after the other |
| `Layout.SerializeVarchar` | src/execution/insert_executor.cpp:34-47 | The loop writes the texts and their running offsets |
| `Layout.TextAt` | src/execution/insert_executor.cpp:34-47 | Each string lies between its offset and the next |
| `Layout.BuildValidityBitmapBytes` | src/execution/insert_executor.cpp:49-66 | Bit r of column c of the region tells whether that cell is not NULL, for all cells |
| `Formats.NumberImage` | src/execution/insert_executor.cpp:23-32 | Cell i of a numeric column is the i-th group of four bytes, NULL stored as zero |
| `Formats.OffsetImage` | src/execution/insert_executor.cpp:34-47 | Offset n of a VARCHAR column is the total length of its first n strings |
| `Formats.TextImage` | src/execution/insert_executor.cpp:34-47 | Each string stands at its offset |
| `Formats.ValidityImage` | src/execution/insert_executor.cpp:49-66 | The bit of row r is bit r mod 8 of byte r / 8 of its column's run, set exactly when the cell is not NULL |
| `Insert.PadAndWrite` | src/execution/insert_executor.cpp:157-164 | The bytes end up padded in freshly allocated pages and no earlier page changes; it throws exactly for no bytes |
| `Insert.FlushColumn` | src/execution/insert_executor.cpp:166-190 | The column's bytes, NULL count and zone are stored; it throws exactly for a VARCHAR column without text |
| `Insert.StoreRowGroup` | src/execution/insert_executor.cpp:151-200 | The whole row group is stored in consecutive new pages; it throws exactly without columns or when a VARCHAR column has no text |
| `Insert.InsertExecutor.InsertRow` | src/execution/insert_executor.cpp:140-145 | Appends the row to what has been inserted; fails exactly on a mistyped row, which leaves the staging columns before the bad value one cell longer, or when the full row group cannot be written |
| `Insert.InsertExecutor.FlushRowGroup` | src/execution/insert_executor.cpp:151-200 | Writes the staged rows out without changing what has been inserted; fails exactly when a VARCHAR column has no non-empty string, or there is no column |
| `ScanCells.FixedValue` | src/execution/seq_scan_operator.cpp:153-171 | Value i of vector v is the i-th word of page v of the column's range |
| `ScanCells.OffsetRead` | src/execution/seq_scan_operator.cpp:186-190 | The offsets read from the region are the offsets of the strings |
| `ScanCells.TextRead` | src/execution/seq_scan_operator.cpp:191-218 | A string inside the fetched data pages is read back exactly |
| `ScanCells.ValidityRead` | src/execution/seq_scan_operator.cpp:16-23 | The bit the scan looks at tells whether the cell is NULL |
| `ScanPins.FetchReady` | src/execution/seq_scan_operator.cpp:118-174 | With at most one pin held, a pool of two frames never runs out, and pinned pages do not move |
| `ScanPins.FetchWholeRegion` | src/execution/seq_scan_operator.cpp:118-127 | Copies the region's pages, one pin at a time, and restores every pin |
| `Scan.AppendFixedWidth` | src/execution/seq_scan_operator.cpp:146-176 | Gives back the column's cells of this vector and restores every pin |
| `Scan.AppendVarchar` | src/execution/seq_scan_operator.cpp:178-224 | Gives back the strings of this vector exactly when the last row's bit lies on the first bitmap page; every pin is restored |
| `Scan.StringSource` | src/execution/insert_executor.cpp:157-193 | The page behind a VARCHAR column's data, which the scan may read, is a page of the same row group |
| `SeqScan.SeqScanOperator.GetNext` | src/execution/seq_scan_operator.cpp:67-101 | The next chunk is the next 1024 rows of the next row group not ruled out, or its last ones; a failure names a row group that cannot be scanned |
| `SeqScan.SeqScanOperator.AdvanceToUsableRowGroup` | src/execution/seq_scan_operator.cpp:104-116 | Passes over exactly the row groups ruled out |
| `SeqScan.SeqScanOperator.Drain` | src/execution/seq_scan_operator.cpp:67-224 | The chunks together are the reference scan of the stored table; it gets there if and only if every row group is passed over or readable; nothing stays pinned |
| `RoundTrip.ScanInserted` | src/execution/insert_executor.cpp:140-200 | Scanning all columns returns exactly the inserted rows in order, over any number of row groups, if and only if the first bitmap page covers every VARCHAR column |
| `RoundTrip.FourthVarcharColumn` | src/execution/seq_scan_operator.cpp:206-212 | A full row group can be scanned if and only if no VARCHAR column comes fourth or later |
| `RoundTrip.DirectWritesInvisible` | src/execution/insert_executor.cpp:157-164 | Direct writes to new pages never hit a cached page: the pool stays coherent and shows old pages as before, new ones as written |
| `RoundTrip.StoredGroupSound` | src/execution/insert_executor.cpp:166-197 | A stored row group carries the zone maps that the skipping theorem asks for |
| `Durability.BlobKeepsPages` | src/storage/disk_manager.cpp:129-143 | Writing the metadata blob leaves every page handed out as it was |
| `Durability.StoredZonesBuilt` | src/execution/insert_executor.cpp:166-197 | The footer entries of an inserted table are ones whose round trip is exact |
| `Durability.FooterZonesBuilt` | src/catalog/catalog.cpp:89-97 | The footer of a catalog of inserted tables is one whose round trip is exact |
| `Durability.ReopenedTablesStored` | src/catalog/catalog.cpp:58-97 | After persisting and reopening, the catalog is back and the file still stores the rows of every row group of every table |
| `Durability.ScanReopened` | src/catalog/catalog.cpp:58-87 | Reopening the file and scanning a table gives back exactly the rows stored before it was closed, in order |
| `Binder.DisjointSet.Find` | src/binder/binder.cpp:174-180 | Path halving ends at the representative and changes nobody's representative |
| `Binder.DisjointSet.Union` | src/binder/binder.cpp:181 | The class of a takes b's representative, all others keep theirs |
| `Binder.MergedClasses` | src/binder/binder.cpp:181 | Exactly the two classes are merged |
| `Binder.SplitWhere` | src/binder/binder.cpp:282-314 | The loop separates the cross-part equalities from the rest, in order |
| `Binder.BindFromClause` | src/binder/binder.cpp:264-337 | Binding succeeds exactly when every part is tied by an equality to an earlier one, and joins each on the first such equality |
| `Binder.SplitConserves` | src/binder/binder.cpp:292-314 | No WHERE conjunct is lost or made up by the split |
| `Binder.UsedOnce` | src/binder/binder.cpp:316-335 | No equality is used for two joins |
| `Binder.EveryEqualityUsedIff` | src/binder/binder.cpp:316-335 | Every cross-part equality becomes a join condition if and only if there are exactly parts minus one of them; further ones are dropped |
| `Binder.SecondEqualityIsDropped` | src/binder/binder.cpp:316-335 | The smallest dropped condition: two tables tied by two equalities |
| `FromClause.KeyEqualityIsValueEqualityIff` | src/execution/hash_join_operator.cpp:53-79 | For cells of any two column types, equal key bytes mean equal SQL values if and only if it is not a NaN met with itself, +0 met with -0, 0 met with an empty string, or an INTEGER and a FLOAT whose bits disagree with their conversion |
| `FromClause.JoinedMeans` | src/binder/binder.cpp:316-335 | The joins built from the FROM items denote their cross product filtered by the keys of the equalities kept |
| `FromClause.FromClauseMeans` | src/binder/binder.cpp:264-337 | Under the residual filter, the bound FROM clause denotes the cross product filtered by the keys of the equalities kept and by the residual; on a given database that is the whole WHERE if and only if those keys agree with all equalities on every row that passes the residual |
| `KeptEqualities.FollowingKeys` | src/binder/binder.cpp:316-335 | A row with equal keys in listed column pairs has them in every pair that merging the listed ones connects |
| `KeptEqualities.JoinedTwoSided` | src/binder/binder.cpp:316-335 | Planning never refuses the joins made from a WHERE clause: each has one column on each side |
| `KeptEqualities.AllKeptMeansWhere` | src/binder/binder.cpp:316-335 | With exactly parts minus one equalities, of any types, the clause means its WHERE wherever keys and values agree |
| `KeptEqualities.ToldMeansWhere` | src/binder/binder.cpp:264-337 | With any number of equalities between two INTEGERs or two VARCHARs that follow from those in force, the clause means its whole WHERE on every database |
| `KeptEqualities.MeansWhereIff` | src/binder/binder.cpp:264-337 | The clause means its WHERE on all tables of these types, whatever else the WHERE asks, if and only if every cross-part equality compares two INTEGER or two VARCHAR columns and follows from the kept and the ON equalities |
| `Engine.ScanTable` | src/execution/seq_scan_operator.cpp:67-224 | Draining the scan machine over a stored table gives the reference scan, or fails exactly on a throwing test or an illegible row group |
| `Engine.FilterChunks` | src/execution/filter_operator.cpp:13-29 | A drained filter carries the filtered rows and throws exactly when handed rows with a boolean operand |
| `Engine.ProjectChunks` | src/execution/projection_operator.cpp:17-48 | A drained projection carries the projected rows and throws exactly as a chunk makes it |
| `Engine.Execute` | src/execution/hash_join_operator.cpp:147-173 | The operators' machines, run as a tree over stored tables and one buffer pool: they throw exactly when the reference Run does or a row group is illegible, and their chunks are Run's output; no page stays pinned |
| `Session.FromTreeTyped` | src/optimizer/optimizer.cpp:47-71 | The operators of a FROM tree are well-typed and hand over chunks of the types PhysicalOutputSchema lists |
| `Session.OptimizedTyped` | src/optimizer/optimizer.cpp:277-283 | The operators of every bound query are well-typed |
| `Session.StoredWorldSound` | src/storage/column_footer_entry.cpp:6-18 | A stored database is one the zone-map theorems apply to |
| `Session.ExecuteQuery` | src/optimizer/optimizer.cpp:277-283 | From bound query to chunks, over stored pages: it fails exactly when HAVING reads an ungrouped column, a join equality has both columns on one side, an operator of the rewritten plan throws or a row group is illegible, and the chunks are the reference answer if and only if, besides, no column-free HAVING over a global aggregate fails |

## Left out

- SQL parsing, name resolution, select-list and INSERT binding, the command line and the benchmarks.
- Display names of output columns and the REPL's formatting.
- POSIX errors, short reads and writes, file descriptors, and recovery after an exception halfway through a file operation.
- Crash safety between metadata writes; the repository promises none.
- Float rounding: float operations are a parameter, so nothing is said about what a float sum or average is, only in which order values enter it.
- NaN at the head of a float column: the query theorems ask that no float column of a row group begins with one; `ZoneMaps.FloatSkipSoundIff` says exactly what happens otherwise.
- Integer overflow of sums and counts: results are stated after narrowing to int32, as the engine emits them; the 64-bit accumulator is unbounded in the model.
- Capacity: page ids, table ids, counts and lengths are assumed to fit the 32 bits (and the metadata offset the 64 bits) they are stored in, and a column's text in a row group to stay below 2 GiB, the range of its int32 offsets.
- Accumulators and chunks are values that loops reassign, not objects; pointers into chunk columns are not modelled.
- The aggregation operator's three per-type output builders: output columns are built directly in their final order.
- std::sort followed by std::unique is modelled as one function that sorts and removes repeats.
- The catalog's hash maps: iteration takes every possible order; hashing itself is not modelled.
- The hash join's and aggregation's hash tables are maps keyed by the serialised key.
- NULL literals cannot reach the insert executor; the model's InsertRow also accepts NULL cells and stores them as the column classes would.
- Binder.BindFromClause: takes parts and conjuncts that are already bound; explicit JOIN ... ON clauses inside a part are not modelled.
- Disk.DiskManager.WriteBlob: writes the whole blob in one step.
- Engine.Execute: drains each child before its parent starts; in the code a filter or probe runs between two pulls, but never two scans at once, so the pages are touched in the same order. Its illegible row groups are those of Scan.AppendVarchar.
- Scan.AppendVarchar: fails where the code reads validity bits behind the fetched page; what those bytes are is not modelled.
- RoundTrip.ScanInserted: its failing half is that of Scan.AppendVarchar.
- SeqScan.SeqScanOperator.Drain: its failing half is that of Scan.AppendVarchar.
- Engine.ScanTable: its failure on an illegible row group is that of Scan.AppendVarchar.
- Session.ExecuteQuery: its failure on an illegible row group is that of Scan.AppendVarchar.
- Expressions.IntArithmeticExact: out of range the model wraps; the C++ arithmetic (src/execution/expression_evaluator.cpp:82-97), the least integer divided by -1 included, is undefined there.
- KeyBytes.SameKeyIsCellsMatchIff: for fewer than 2^29 key columns, so that a crossing text fits a VARCHAR.
- KeptEqualities.MeansWhereIff: asks that no ON equality inside a FROM item compares a number with text; its tables may hold any FLOAT, NaN included.
- ByteIO.ByteReader.ReadU32: fails at the end of the buffer; the C++ reader does not check (src/serialization/byte_io.cpp:34-44), and what it reads there is not modelled.
