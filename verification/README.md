# Join pushdown into a table scan

This project models the optimizer rule `PushJoinIntoTableScan` of the Trino query engine. The model follows the contract that the rule's test suite fixes. The rule looks at a join whose two inputs are table scans. If the session allows join pushdown, it offers the join to the connector that owns both tables. When the connector accepts, the rule replaces the join with one scan of the joined relation that the connector returns.

The model has these parts:

- `Domains`: the value domains of the SPI. A domain is a set of BIGINT values plus a flag that says whether NULL is allowed. A constraint maps column handles to domains, which is the `TupleDomain.withColumnDomains` form. The module also renames the keys of a map through a column-handle mapping.
- `Expressions` and `Plan`: the plan side. This covers symbols, the comparison operators with SQL three-valued semantics, filters, join types, scans and join nodes.
- `Spi`: the connector side. This covers join types, condition operators, join conditions, the join request and the connector's reply. A connector is a function from request to reply. The reply is declined, accepted with a `JoinApplicationResult`, or failed, where failed stands for an exception thrown by the connector.
- `ConditionTranslation`: translating the plan's join type, equi-join clauses and filter into connector terms.
- `CostGate`: the cardinality gate that join_pushdown=AUTOMATIC applies.
- `PushJoinIntoTableScan`: the rule itself. `Decide` applies the gates in order and builds the request. `Apply` negotiates with the connector. `Rewrite` checks the column mappings and builds the replacement scan. `MergeConstraints` carries each side's enforced constraint over to the new handles.
- `PushJoinScenarios`: every scenario of the test suite, replayed on the model. Each uses the same tables, column handles, mappings, constraints and statistics as the test.

## Model

| member | source | states |
|---|---|---|
| ConditionTranslation.ToSpiJoinType | core/trino-main/src/test/java/io/trino/sql/planner/iterative/rule/TestPushJoinIntoTableScan.java:779-793 | The connector join type keeps unmatched left rows exactly when the plan join pads the right side (LEFT, FULL), and keeps unmatched right rows exactly when it pads the left side (RIGHT, FULL) |
| ConditionTranslation.ToSpiJoinTypeIsBijective | core/trino-main/src/test/java/io/trino/sql/planner/iterative/rule/TestPushJoinIntoTableScan.java:779-793 | The join-type translation is one-to-one, and every connector join type is reached |
| ConditionTranslation.GetConditionOperator | core/trino-main/src/test/java/io/trino/sql/planner/iterative/rule/TestPushJoinIntoTableScan.java:795-815 | The connector operator evaluates every pair of nullable values exactly as the plan comparison does, including NULL handling and IS DISTINCT FROM |
| ConditionTranslation.GetConditionOperatorIsInjective | core/trino-main/src/test/java/io/trino/sql/planner/iterative/rule/TestPushJoinIntoTableScan.java:795-815 | Distinct comparison operators reach the connector as distinct condition operators |
| Expressions.Flip | core/trino-main/src/test/java/io/trino/sql/planner/iterative/rule/TestPushJoinIntoTableScan.java:173-177 | Swapping the operands of a comparison and using the flipped operator gives the same three-valued result. The tests only build the `a1 op b1` order shown here, never the swapped one; the flip is what `TranslateFilter` uses for a filter written right column first |
| ConditionTranslation.TranslateFilter | core/trino-main/src/test/java/io/trino/sql/planner/iterative/rule/TestPushJoinIntoTableScan.java:139-141 | A filter translates exactly when it compares a left column with a right column. The condition's left variable is then a left symbol and its right variable a right symbol, and it holds for every environment exactly when the filter is TRUE |
| ConditionTranslation.TranslateConditions | core/trino-main/src/test/java/io/trino/sql/planner/iterative/rule/TestPushJoinIntoTableScan.java:139-141 | The conditions are defined exactly when there is no filter or the filter translates. There is one EQUAL condition per equi-join clause, in order, then the filter's condition. All of them hold for a pair of rows exactly when the join matches it |
| ConditionTranslation.ConditionsMatchClauses | core/trino-main/src/test/java/io/trino/sql/planner/iterative/rule/TestPushJoinIntoTableScan.java:167-171 | The EQUAL conditions of the clauses all hold exactly when every equi-join clause is TRUE |
| ConditionTranslation.ValuesAreVariables | core/trino-main/src/test/java/io/trino/sql/planner/iterative/rule/TestPushJoinIntoTableScan.java:89-96 | A connector variable reads the value of the plan symbol with the same name |
| CostGate.UnknownEstimateDenies | core/trino-main/src/test/java/io/trino/sql/planner/iterative/rule/TestPushJoinIntoTableScan.java:648-657 | An unknown (NaN) left, right or join row count always fails the gate |
| CostGate.PushdownProfitableMonotone | core/trino-main/src/test/java/io/trino/sql/planner/iterative/rule/TestPushJoinIntoTableScan.java:648-657 | Passing the gate is monotone: fewer join rows, or more rows on either input, still pass |
| CostGate.TestedPointsDetermineFactor | core/trino-main/src/test/java/io/trino/sql/planner/iterative/rule/TestPushJoinIntoTableScan.java:648-657 | The six estimate combinations of the test suite get their expected verdicts exactly when the factor lies in [1.33, 1.34). The rule's factor 4/3 is one of them |
| Domains.All | core/trino-main/src/test/java/io/trino/sql/planner/iterative/rule/TestPushJoinIntoTableScan.java:465-466 | The ALL domain of the SPI contains every value, NULL included. It is the top element that `UnionBounds` shows absorbs every union. The test file itself never builds it |
| Domains.OnlyNull | core/trino-main/src/test/java/io/trino/sql/planner/iterative/rule/TestPushJoinIntoTableScan.java:465 | The onlyNull domain contains NULL and nothing else |
| Domains.Union | core/trino-main/src/test/java/io/trino/sql/planner/iterative/rule/TestPushJoinIntoTableScan.java:465-466 | A value is in the union exactly when it is in either domain |
| Domains.ExtensionalEquality | core/trino-main/src/test/java/io/trino/sql/planner/iterative/rule/TestPushJoinIntoTableScan.java:461-467 | Two domains that contain the same values are equal, so a domain is fixed by its contents |
| Domains.UnionLaws | core/trino-main/src/test/java/io/trino/sql/planner/iterative/rule/TestPushJoinIntoTableScan.java:465-466 | Union is commutative, associative and idempotent |
| Domains.UnionBounds | core/trino-main/src/test/java/io/trino/sql/planner/iterative/rule/TestPushJoinIntoTableScan.java:465-466 | The unrestricted domain absorbs every domain, and the empty domain is the unit of union |
| Domains.WithNull | core/trino-main/src/test/java/io/trino/sql/planner/iterative/rule/TestPushJoinIntoTableScan.java:465 | `d.union(onlyNull)` contains NULL and exactly the non-NULL values of `d` |
| Domains.WithNullIdempotent | core/trino-main/src/test/java/io/trino/sql/planner/iterative/rule/TestPushJoinIntoTableScan.java:489-491 | Widening with NULL twice is the same as widening once, and a domain that already accepts NULL is left as it is |
| Domains.Unrestricted | core/trino-main/src/test/java/io/trino/sql/planner/iterative/rule/TestPushJoinIntoTableScan.java:623 | `TupleDomain.all()` is satisfied by every row |
| Domains.WidenWithNull | core/trino-main/src/test/java/io/trino/sql/planner/iterative/rule/TestPushJoinIntoTableScan.java:461-467 | Each domain of a constraint is widened with NULL when the side is padded, and left unchanged otherwise. The keys stay the same |
| Domains.Rename | core/trino-main/src/test/java/io/trino/sql/planner/iterative/rule/TestPushJoinIntoTableScan.java:122-127 | Renaming through an injective mapping moves each known key's entry to its new handle. Every new key is the image of an old one |
| Domains.NullRow | core/trino-main/src/test/java/io/trino/sql/planner/iterative/rule/TestPushJoinIntoTableScan.java:461-467 | The padding row has exactly the given columns, all NULL |
| CostGate.PushdownProfitable | core/trino-main/src/test/java/io/trino/sql/planner/iterative/rule/TestPushJoinIntoTableScan.java:648-657 | The AUTOMATIC gate passes only when all three row counts are known. With a non-negative factor, it passes exactly when the join estimate is at most the factor times each input's estimate |
| Domains.MultipleValues | core/trino-main/src/test/java/io/trino/sql/planner/iterative/rule/TestPushJoinIntoTableScan.java:441-443 | `Domain.multipleValues` accepts exactly the listed non-NULL values and rejects NULL |
| PushJoinIntoTableScan.PushdownEnabled | core/trino-main/src/test/java/io/trino/sql/planner/iterative/rule/TestPushJoinIntoTableScan.java:309-391 | Pushdown is enabled exactly when allow_pushdown_into_connectors is true and join_pushdown is AUTOMATIC or EAGER |
| Plan.IsCrossJoin | core/trino-main/src/test/java/io/trino/sql/planner/iterative/rule/TestPushJoinIntoTableScan.java:524-528 | A cross join is a join with no equi-join clause and no filter, and it matches every pair of rows |
| PushJoinIntoTableScan.CoversOldHandles | core/trino-main/src/test/java/io/trino/sql/planner/iterative/rule/TestPushJoinIntoTableScan.java:535-584 | A mapping covers a scan exactly when every column handle the scan reads has a new handle |
| PushJoinIntoTableScan.Decide | core/trino-main/src/test/java/io/trino/sql/planner/iterative/rule/TestPushJoinIntoTableScan.java:132-226 | The connector is asked only for two scans of the same catalog, with pushdown enabled, a join that is not a cross join, a translatable filter, and under AUTOMATIC a passing gate. The request carries the translated join type, both connector handles, both assignments, and exactly the translated conditions: one EQUAL per equi-join clause in order, then the filter's condition oriented left to right. Together they hold exactly when the join matches |
| PushJoinIntoTableScan.Apply | core/trino-main/src/test/java/io/trino/sql/planner/iterative/rule/TestPushJoinIntoTableScan.java:132-182 | An ineligible join is left unchanged. Once the connector is asked, a declined offer leaves the plan unchanged, an exception becomes a connector fault carrying its message, and an acceptance yields exactly `Rewrite` of the connector's answer. A fault arises only after the connector was asked and did not decline |
| PushJoinIntoTableScan.Rewrite | core/trino-main/src/test/java/io/trino/sql/planner/iterative/rule/TestPushJoinIntoTableScan.java:535-584 | The mapping error arises exactly when a mapping misses an old handle. Otherwise the scan is replaced exactly when the mappings are one-to-one. It keeps the catalog, reads the joined table, outputs the left then the right symbols, reassigns every symbol to its new handle, and carries the merged constraint |
| PushJoinIntoTableScan.Reassign | core/trino-main/src/test/java/io/trino/sql/planner/iterative/rule/TestPushJoinIntoTableScan.java:122-127 | Every symbol keeps its place and reads the new handle of its old handle |
| PushJoinIntoTableScan.MergeConstraints | core/trino-main/src/test/java/io/trino/sql/planner/iterative/rule/TestPushJoinIntoTableScan.java:439-494 | Each side's domain moves to its new handle, widened with NULL on the side the join type pads and unchanged otherwise. Every key comes from one side |
| PushJoinIntoTableScan.MergedKeysAreNewHandles | core/trino-main/src/test/java/io/trino/sql/planner/iterative/rule/TestPushJoinIntoTableScan.java:446-456 | When the mappings know exactly the constrained handles, the merged constraint constrains exactly the new handles |
| PushJoinIntoTableScan.MatchedRowsSatisfyMerged | core/trino-main/src/test/java/io/trino/sql/planner/iterative/rule/TestPushJoinIntoTableScan.java:439-494 | For every join type, a matched pair of rows that satisfy their sides' constraints satisfies the merged constraint |
| PushJoinIntoTableScan.UnmatchedLeftRowsSatisfyMerged | core/trino-main/src/test/java/io/trino/sql/planner/iterative/rule/TestPushJoinIntoTableScan.java:470-480 | Under LEFT and FULL, an unmatched left row padded with NULLs satisfies the merged constraint |
| PushJoinIntoTableScan.UnmatchedRightRowsSatisfyMerged | core/trino-main/src/test/java/io/trino/sql/planner/iterative/rule/TestPushJoinIntoTableScan.java:458-468 | Under RIGHT and FULL, an unmatched right row padded with NULLs satisfies the merged constraint |
| PushJoinIntoTableScan.PaddingWithoutWideningIsUnsound | core/trino-main/src/test/java/io/trino/sql/planner/iterative/rule/TestPushJoinIntoTableScan.java:446-468 | Without the widening, a NULL-padded row breaks the merged constraint as soon as one carried-over domain rejects NULL |
| PushJoinIntoTableScan.DoesNotFireAcrossCatalogs | core/trino-main/src/test/java/io/trino/sql/planner/iterative/rule/TestPushJoinIntoTableScan.java:269-307 | Scans of different catalogs are never offered, and the plan is unchanged whatever the connector |
| PushJoinIntoTableScan.DoesNotFireWhenDisabled | core/trino-main/src/test/java/io/trino/sql/planner/iterative/rule/TestPushJoinIntoTableScan.java:309-391 | With join_pushdown=DISABLED or allow_pushdown_into_connectors=false, nothing is offered and nothing changes |
| PushJoinIntoTableScan.DoesNotFireForCrossJoin | core/trino-main/src/test/java/io/trino/sql/planner/iterative/rule/TestPushJoinIntoTableScan.java:496-533 | A join without criteria and without a filter is never offered |
| PushJoinIntoTableScan.DoesNotFireForUnsupportedFilter | core/trino-main/src/test/java/io/trino/sql/planner/iterative/rule/TestPushJoinIntoTableScan.java:228-267 | A filter that is not a comparison between a left and a right column stops the rule before the connector is asked |
| PushJoinIntoTableScan.DoesNotFireWhenUnprofitable | core/trino-main/src/test/java/io/trino/sql/planner/iterative/rule/TestPushJoinIntoTableScan.java:586-657 | Under AUTOMATIC, estimates that fail the gate (an unknown one included) stop the rule |
| PushJoinIntoTableScan.EagerIgnoresEstimates | core/trino-main/src/test/java/io/trino/sql/planner/iterative/rule/TestPushJoinIntoTableScan.java:660-722 | Under EAGER, the decision and the outcome do not depend on the estimates |
| PushJoinIntoTableScan.NotRetriggeredOnItsOutput | core/trino-main/src/test/java/io/trino/sql/planner/iterative/rule/TestPushJoinIntoTableScan.java:179-181 | The replacement is a scan, on which the rule makes no further change |
| PushJoinIntoTableScan.NegotiatesWhenEligible | core/trino-main/src/test/java/io/trino/sql/planner/iterative/rule/TestPushJoinIntoTableScan.java:132-226 | The gates are also sufficient: a join that passes every one is offered to the connector |
| PushJoinIntoTableScan.FiresExactlyWhenAccepted | core/trino-main/src/test/java/io/trino/sql/planner/iterative/rule/TestPushJoinIntoTableScan.java:143-146 | The join is replaced exactly when it is offered, accepted, and answered with mappings that cover every old handle one-to-one |
| PushJoinIntoTableScan.MissingMappingIsFatal | core/trino-main/src/test/java/io/trino/sql/planner/iterative/rule/TestPushJoinIntoTableScan.java:535-584 | An accepted join whose mappings miss an old handle aborts with "Column handle mappings do not match old column handles" instead of declining |
| PushJoinScenarios.PushJoinIntoTableScanFires | core/trino-main/src/test/java/io/trino/sql/planner/iterative/rule/TestPushJoinIntoTableScan.java:132-226 | For all 32 combinations of join type and equi-clause or filter operator, the connector receives the one expected condition and the join becomes a scan of TABLE_A_JOINED_WITH_B |
| PushJoinScenarios.EquiJoinFires | core/trino-main/src/test/java/io/trino/sql/planner/iterative/rule/TestPushJoinIntoTableScan.java:166-171 | The equi-join on a1 = b1 reaches the connector as one EQUAL condition and is replaced |
| PushJoinScenarios.FilterJoinFires | core/trino-main/src/test/java/io/trino/sql/planner/iterative/rule/TestPushJoinIntoTableScan.java:172-177 | The filter a1 op b1 reaches the connector as one condition with the translated operator and is replaced |
| PushJoinScenarios.UnsupportedFilterDoesNotFire | core/trino-main/src/test/java/io/trino/sql/planner/iterative/rule/TestPushJoinIntoTableScan.java:228-267 | The filter 44 * a1 > b1 leaves the plan unchanged without calling the connector |
| PushJoinScenarios.DifferentCatalogsDoNotFire | core/trino-main/src/test/java/io/trino/sql/planner/iterative/rule/TestPushJoinIntoTableScan.java:269-307 | Table B in another_catalog leaves the plan unchanged without calling the connector |
| PushJoinScenarios.DisabledDoesNotFire | core/trino-main/src/test/java/io/trino/sql/planner/iterative/rule/TestPushJoinIntoTableScan.java:309-349 | join_pushdown=DISABLED leaves the plan unchanged without calling the connector |
| PushJoinScenarios.AllPushdownsDisabledDoesNotFire | core/trino-main/src/test/java/io/trino/sql/planner/iterative/rule/TestPushJoinIntoTableScan.java:351-391 | allow_pushdown_into_connectors=false leaves the plan unchanged without calling the connector |
| PushJoinScenarios.CrossJoinDoesNotFire | core/trino-main/src/test/java/io/trino/sql/planner/iterative/rule/TestPushJoinIntoTableScan.java:496-533 | A join without criteria leaves the plan unchanged without calling the connector |
| PushJoinScenarios.PreservesEnforcedConstraint | core/trino-main/src/test/java/io/trino/sql/planner/iterative/rule/TestPushJoinIntoTableScan.java:393-437 | For each join type, the replacement scan reads the joined table and enforces the expected per-kind constraint |
| PushJoinScenarios.MergedTestConstraint | core/trino-main/src/test/java/io/trino/sql/planner/iterative/rule/TestPushJoinIntoTableScan.java:439-494 | The merged constraint of the test equals the table's expected constraint for INNER, RIGHT, LEFT and FULL |
| PushJoinScenarios.JoinedMappingsValid | core/trino-main/src/test/java/io/trino/sql/planner/iterative/rule/TestPushJoinIntoTableScan.java:122-127 | The mock connector's mappings cover both scans' handles one-to-one |
| PushJoinScenarios.MissingRightMappingIsFatal | core/trino-main/src/test/java/io/trino/sql/planner/iterative/rule/TestPushJoinIntoTableScan.java:535-584 | An empty right mapping aborts the rewrite with the expected message |
| PushJoinScenarios.AutomaticJoinPushdown | core/trino-main/src/test/java/io/trino/sql/planner/iterative/rule/TestPushJoinIntoTableScan.java:586-657 | Under AUTOMATIC, of the six estimate combinations of the test suite only (100, 200, 133) replaces the join |
| PushJoinScenarios.EagerIgnoresTestedEstimates | core/trino-main/src/test/java/io/trino/sql/planner/iterative/rule/TestPushJoinIntoTableScan.java:660-722 | Under EAGER, all six estimate combinations replace the join |

## Left out

- The rule's own implementation file (PushJoinIntoTableScan.java) is not part of this model. Its behaviour is modelled from the contract its test suite fixes, so the order of the gates and the exact rejection of malformed mappings are modelling choices.
- PushJoinIntoTableScan.Rewrite: mappings that are not injective, or that send a left and a right handle to the same new handle, are modelled as a distinct fault (`InvalidMapping`). The tests only exercise the missing-mapping error.
- CostGate.PushdownProfitable: the gate is modelled as `join <= min(left, right) * 4/3`. An output-size reading with 8-byte BIGINT columns (`24 * join <= 16 * left + 8 * right`) also fits every point of the test suite. The tests do not tell the two apart.
- Row counts are reals, and NaN is `None`. Floating-point rounding is not modelled.
- BIGINT values are unbounded integers. Overflow plays no part in the modelled comparisons.
- `TupleDomain.none()`, ranges, and the rest of the domain library are not modelled. Only the discrete and unrestricted domains the tests use are.
- The plan is only a join over two scans. The `ProjectNode` the test helper may wrap around the result, the `anyTree` matching, plan-node identifiers and statistics providers are not modelled. Statistics arrive as explicit `RowEstimates`.
- Exceptions thrown by the connector are the `Failed` reply, and the rule reports them as a fault. Connector metadata calls other than `applyJoin` are not modelled.
- The `default` branches of `toSpiJoinType` and `getConditionOperator` cannot be reached, because the join types and operators are closed datatypes.
- Sessions, transactions, catalogs as running objects, and the test harness (`RuleTester`, `MockConnectorFactory`) are not modelled.
- ApproximateSetVarcharAggregation.java and KafkaClientProducerFactory.java are not part of this model, because they are unrelated to join pushdown.
