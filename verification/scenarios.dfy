/**
 * The scenarios of the rule's test suite, replayed on the model: two mock tables
 * `test_table_a(columna1, columna2)` and `test_table_b(columnb1)`, the relation
 * `TABLE_A_JOINED_WITH_B` the mock connector returns, and the connectors it is given.
 */
module PushJoinScenarios {
  import opened Wrappers
  import opened Domains
  import opened Expressions
  import opened Plan
  import opened CostGate
  import opened ConditionTranslation
  import opened PushJoinIntoTableScan
  import Spi

  const MockCatalog: string := "mock_catalog"
  const A1: string := "columna1"
  const A2: string := "columna2"
  const B1: string := "columnb1"

  const TableA: Spi.ConnectorTableHandle := Spi.ConnectorTableHandle("test_schema", "test_table_a")
  const TableB: Spi.ConnectorTableHandle := Spi.ConnectorTableHandle("test_schema", "test_table_b")
  const JoinedTable: Spi.ConnectorTableHandle := Spi.ConnectorTableHandle("test_schema", "TABLE_A_JOINED_WITH_B")

  /** The new column handles of the joined relation. */
  const JoinA1: ColumnHandle := "join_columna1"
  const JoinA2: ColumnHandle := "join_columna2"
  const JoinB1: ColumnHandle := "join_columnb1"

  const LeftMapping: map<ColumnHandle, ColumnHandle> := map[A1 := JoinA1, A2 := JoinA2]
  const RightMapping: map<ColumnHandle, ColumnHandle> := map[B1 := JoinB1]

  /** Scans of table A and table B; a symbol and the column handle it reads share the column's name. */
  function ScanA(catalog: string, constraint: Constraint): TableScan
  {
    TableScan(TableHandle(catalog, TableA), [A1, A2], map[A1 := A1, A2 := A2], constraint)
  }

  function ScanB(catalog: string, constraint: Constraint): TableScan
  {
    TableScan(TableHandle(catalog, TableB), [B1], map[B1 := B1], constraint)
  }

  /** `A JOIN B ON a1 = b1`, with unrestricted enforced constraints. */
  function EquiJoin(joinType: JoinType, left: TableScan, right: TableScan): PlanNode
  {
    Join(joinType, Scan(left), Scan(right), [EquiJoinClause(A1, B1)], None)
  }

  /** `A JOIN B ON a1 <op> b1`, expressed as a filter. */
  function FilterJoin(joinType: JoinType, op: ComparisonOperator): PlanNode
  {
    Join(joinType, Scan(ScanA(MockCatalog, map[])), Scan(ScanB(MockCatalog, map[])), [],
         Some(Comparison(op, SymbolReference(A1), SymbolReference(B1))))
  }

  /** The session of the tests: join_pushdown=EAGER, pushdown into connectors allowed. */
  const EagerSession: SessionConfig := SessionConfig(Eager, true)

  const NoEstimates: RowEstimates := RowEstimates(None, None, None)

  const Joined: Spi.JoinApplicationResult := Spi.JoinApplicationResult(JoinedTable, LeftMapping, RightMapping)

  /**
   * The connector of the firing tests: it accepts exactly the expected request (A and B,
   * the expected join type, the single expected condition) and fails on any other.
   */
  function ExpectingConnector(joinType: Spi.JoinType, operator: Spi.ConditionOperator): Spi.Connector
  {
    (request: Spi.JoinRequest) =>
      if request.left == TableA && request.right == TableB && request.joinType == joinType
         && request.conditions == [Spi.JoinCondition(operator, Spi.Variable(A1), Spi.Variable(B1))]
      then Spi.Accepted(Joined)
      else Spi.Failed("unexpected join request")
  }

  /** The connector of the non-firing tests: being called at all is a failure. */
  const ThrowingConnector: Spi.Connector := (request: Spi.JoinRequest) => Spi.Failed("applyJoin should not be called!")

  /** A connector that accepts any request with the given answer. */
  function AcceptingConnector(result: Spi.JoinApplicationResult): Spi.Connector
  {
    (request: Spi.JoinRequest) => Spi.Accepted(result)
  }

  /**
   * For every join type, an equi-join clause and each of the seven comparison operators as
   * a filter between a1 and b1 reach the connector as the one expected condition, and the
   * join is replaced by a scan of the joined relation.
   */
  lemma PushJoinIntoTableScanFires(joinType: JoinType, op: Option<ComparisonOperator>)
    ensures
      var node := if op.None? then EquiJoin(joinType, ScanA(MockCatalog, map[]), ScanB(MockCatalog, map[]))
                  else FilterJoin(joinType, op.value);
      var expected := if op.None? then Spi.Equal else GetConditionOperator(op.value);
      var r := Apply(node, EagerSession, NoEstimates, ExpectingConnector(ToSpiJoinType(joinType), expected));
      r.Replaced? && r.scan.table == TableHandle(MockCatalog, JoinedTable)
  {
    if op.None? {
      EquiJoinFires(joinType);
    } else {
      FilterJoinFires(joinType, op.value);
    }
  }

  lemma EquiJoinFires(joinType: JoinType)
    ensures
      var r := Apply(EquiJoin(joinType, ScanA(MockCatalog, map[]), ScanB(MockCatalog, map[])), EagerSession, NoEstimates,
                     ExpectingConnector(ToSpiJoinType(joinType), Spi.Equal));
      r.Replaced? && r.scan.table == TableHandle(MockCatalog, JoinedTable)
  {
    var left, right := ScanA(MockCatalog, map[]), ScanB(MockCatalog, map[]);
    var node := EquiJoin(joinType, left, right);
    NegotiatesWhenEligible(node, EagerSession, NoEstimates);
    var request := Decide(node, EagerSession, NoEstimates).request;
    assert request.conditions == [ClauseCondition(EquiJoinClause(A1, B1))];
    JoinedMappingsValid(left, right);
  }

  lemma FilterJoinFires(joinType: JoinType, op: ComparisonOperator)
    ensures
      var r := Apply(FilterJoin(joinType, op), EagerSession, NoEstimates,
                     ExpectingConnector(ToSpiJoinType(joinType), GetConditionOperator(op)));
      r.Replaced? && r.scan.table == TableHandle(MockCatalog, JoinedTable)
  {
    var left, right := ScanA(MockCatalog, map[]), ScanB(MockCatalog, map[]);
    var node := FilterJoin(joinType, op);
    var condition := Spi.JoinCondition(GetConditionOperator(op), Spi.Variable(A1), Spi.Variable(B1));
    assert TranslateFilter(node.filter.value, left.assignments.Keys, right.assignments.Keys) == Some(condition);
    NegotiatesWhenEligible(node, EagerSession, NoEstimates);
    var request := Decide(node, EagerSession, NoEstimates).request;
    assert request.conditions == TranslateConditions([], node.filter, left.assignments.Keys, right.assignments.Keys).value;
    assert request.conditions == [condition];
    JoinedMappingsValid(left, right);
  }

  /** `44 * a1 > b1` is not a comparison of two columns: the connector is not called. */
  lemma UnsupportedFilterDoesNotFire()
    ensures
      var filter := Comparison(GreaterThan, Multiply(Literal(44), SymbolReference(A1)), SymbolReference(B1));
      var node := Join(Inner, Scan(ScanA(MockCatalog, map[])), Scan(ScanB(MockCatalog, map[])), [], Some(filter));
      Apply(node, EagerSession, NoEstimates, ThrowingConnector) == NoChange
  {
  }

  /** Table B in another catalog: the connector is not called. */
  lemma DifferentCatalogsDoNotFire()
    ensures Apply(EquiJoin(Inner, ScanA(MockCatalog, map[]), ScanB("another_catalog", map[])),
                  EagerSession, NoEstimates, ThrowingConnector) == NoChange
  {
  }

  /** join_pushdown=DISABLED: the connector is not called. */
  lemma DisabledDoesNotFire()
    ensures Apply(EquiJoin(Inner, ScanA(MockCatalog, map[]), ScanB(MockCatalog, map[])),
                  SessionConfig(Disabled, true), NoEstimates, ThrowingConnector) == NoChange
  {
  }

  /** allow_pushdown_into_connectors=false: the connector is not called. */
  lemma AllPushdownsDisabledDoesNotFire()
    ensures Apply(EquiJoin(Inner, ScanA(MockCatalog, map[]), ScanB(MockCatalog, map[])),
                  SessionConfig(Eager, false), NoEstimates, ThrowingConnector) == NoChange
  {
  }

  /** A join without criteria: the connector is not called. */
  lemma CrossJoinDoesNotFire()
    ensures Apply(Join(Inner, Scan(ScanA(MockCatalog, map[])), Scan(ScanB(MockCatalog, map[])), [], None),
                  EagerSession, NoEstimates, ThrowingConnector) == NoChange
  {
  }

  /** The enforced constraints of the constraint test: a1 in {3}, a2 in {10, 20}, b1 in {30, 40}. */
  const LeftConstraint: Constraint := map[A1 := MultipleValues({3}), A2 := MultipleValues({10, 20})]
  const RightConstraint: Constraint := map[B1 := MultipleValues({30, 40})]

  /** The merged constraint each join type is expected to produce. */
  function ExpectedConstraint(joinType: JoinType): Constraint
  {
    match joinType
    case Inner =>
      map[JoinA1 := MultipleValues({3}), JoinA2 := MultipleValues({10, 20}), JoinB1 := MultipleValues({30, 40})]
    case Right =>
      map[JoinA1 := WithNull(MultipleValues({3})), JoinA2 := WithNull(MultipleValues({10, 20})), JoinB1 := MultipleValues({30, 40})]
    case Left =>
      map[JoinA1 := MultipleValues({3}), JoinA2 := MultipleValues({10, 20}), JoinB1 := WithNull(MultipleValues({30, 40}))]
    case Full =>
      map[JoinA1 := WithNull(MultipleValues({3})), JoinA2 := WithNull(MultipleValues({10, 20})), JoinB1 := WithNull(MultipleValues({30, 40}))]
  }

  /** The replacement scan carries each side's enforced constraint over to the new handles, widened with NULL per join type. */
  lemma PreservesEnforcedConstraint(joinType: JoinType)
    ensures
      var node := EquiJoin(joinType, ScanA(MockCatalog, LeftConstraint), ScanB(MockCatalog, RightConstraint));
      var r := Apply(node, EagerSession, NoEstimates, AcceptingConnector(Joined));
      r.Replaced? && r.scan.table.connectorHandle == JoinedTable && r.scan.enforcedConstraint == ExpectedConstraint(joinType)
  {
    var left, right := ScanA(MockCatalog, LeftConstraint), ScanB(MockCatalog, RightConstraint);
    var node := EquiJoin(joinType, left, right);
    var r := Apply(node, EagerSession, NoEstimates, AcceptingConnector(Joined));
    assert r == Rewrite(joinType, left, right, Joined) by {
      NegotiatesWhenEligible(node, EagerSession, NoEstimates);
    }
    assert r.Replaced? && r.scan.table.connectorHandle == JoinedTable
        && r.scan.enforcedConstraint == MergeConstraints(joinType, LeftConstraint, RightConstraint, LeftMapping, RightMapping) by {
      JoinedMappingsValid(left, right);
    }
    MergedTestConstraint(joinType);
  }

  /** The column names, old and new, are pairwise distinct. */
  lemma DistinctNames()
    ensures A1 != A2 && A1 != B1 && A2 != B1
    ensures JoinA1 != JoinA2 && JoinA1 != JoinB1 && JoinA2 != JoinB1
  {
    assert A1[7] != A2[7] && A1[6] != B1[6] && A2[6] != B1[6];
    assert JoinA1[12] != JoinA2[12] && JoinA1[11] != JoinB1[11] && JoinA2[11] != JoinB1[11];
  }

  /** The mock connector's mappings cover the old handles of both scans, one-to-one. */
  lemma JoinedMappingsValid(left: TableScan, right: TableScan)
    requires left.assignments == map[A1 := A1, A2 := A2] && right.assignments == map[B1 := B1]
    ensures CoversOldHandles(left, LeftMapping) && CoversOldHandles(right, RightMapping)
    ensures OneToOne(Joined)
  {
    DistinctNames();
    assert LeftMapping.Keys == {A1, A2} && RightMapping.Keys == {B1};
    assert forall k :: k in LeftMapping ==> LeftMapping[k] != JoinB1;
    assert JoinB1 !in LeftMapping.Values;
    assert RightMapping.Values == {JoinB1};
  }

  lemma MergedTestConstraint(joinType: JoinType)
    ensures OneToOne(Joined)
    ensures MergeConstraints(joinType, LeftConstraint, RightConstraint, LeftMapping, RightMapping) == ExpectedConstraint(joinType)
  {
    JoinedMappingsValid(ScanA(MockCatalog, map[]), ScanB(MockCatalog, map[]));
    var merged := MergeConstraints(joinType, LeftConstraint, RightConstraint, LeftMapping, RightMapping);
    var expected := ExpectedConstraint(joinType);
    assert merged.Keys == {JoinA1, JoinA2, JoinB1} by { MergedTestKeys(joinType); }
    assert merged[JoinA1] == expected[JoinA1] && merged[JoinA2] == expected[JoinA2] && merged[JoinB1] == expected[JoinB1] by {
      MergedTestDomains(joinType);
    }
    assert expected.Keys == {JoinA1, JoinA2, JoinB1} by { ExpectedKeys(joinType); }
    EqualOnThreeKeys(merged, expected, JoinA1, JoinA2, JoinB1);
  }

  lemma ExpectedKeys(joinType: JoinType)
    ensures ExpectedConstraint(joinType).Keys == {JoinA1, JoinA2, JoinB1}
  {
    match joinType
    case Inner =>
    case Left =>
    case Right =>
    case Full =>
  }

  /** Two maps with the same three keys that agree on each of them are equal. */
  lemma EqualOnThreeKeys<K, V>(m1: map<K, V>, m2: map<K, V>, k1: K, k2: K, k3: K)
    requires m1.Keys == {k1, k2, k3} && m2.Keys == {k1, k2, k3}
    requires m1[k1] == m2[k1] && m1[k2] == m2[k2] && m1[k3] == m2[k3]
    ensures m1 == m2
  {
  }

  /** The merged constraint of the test constrains exactly the three new handles. */
  lemma MergedTestKeys(joinType: JoinType)
    requires OneToOne(Joined)
    ensures MergeConstraints(joinType, LeftConstraint, RightConstraint, LeftMapping, RightMapping).Keys == {JoinA1, JoinA2, JoinB1}
  {
    TestMappingKeys();
    MergedKeysAreNewHandles(joinType, LeftConstraint, RightConstraint, LeftMapping, RightMapping);
  }

  /** The mappings of the test know exactly the constrained handles, and map them onto the three new handles. */
  lemma TestMappingKeys()
    ensures LeftConstraint.Keys == LeftMapping.Keys && RightConstraint.Keys == RightMapping.Keys
    ensures LeftMapping.Values + RightMapping.Values == {JoinA1, JoinA2, JoinB1}
  {
    assert LeftMapping.Values == {JoinA1, JoinA2} by { assert LeftMapping[A1] == JoinA1 && LeftMapping[A2] == JoinA2; }
    assert RightMapping.Values == {JoinB1} by { assert RightMapping[B1] == JoinB1; }
  }

  /** Each new handle's domain in the merged constraint of the test is the expected one. */
  lemma MergedTestDomains(joinType: JoinType)
    requires OneToOne(Joined)
    ensures var merged := MergeConstraints(joinType, LeftConstraint, RightConstraint, LeftMapping, RightMapping);
      && JoinA1 in merged && merged[JoinA1] == ExpectedConstraint(joinType)[JoinA1]
      && JoinA2 in merged && merged[JoinA2] == ExpectedConstraint(joinType)[JoinA2]
      && JoinB1 in merged && merged[JoinB1] == ExpectedConstraint(joinType)[JoinB1]
  {
    DistinctNames();
    assert A1 in LeftConstraint && A2 in LeftConstraint && B1 in RightConstraint;
    assert LeftMapping[A1] == JoinA1 && LeftMapping[A2] == JoinA2 && RightMapping[B1] == JoinB1;
    match joinType
    case Inner =>
    case Left =>
    case Right =>
    case Full =>
  }

  /** The connector leaves b1 out of the right mapping: the rewrite aborts with the mapping error. */
  lemma MissingRightMappingIsFatal()
    ensures
      var left := ScanA(MockCatalog, map[A2 := MultipleValues({44})]);
      var right := ScanB(MockCatalog, map[B1 := MultipleValues({45})]);
      var r := Apply(EquiJoin(Inner, left, right), EagerSession, NoEstimates,
                     AcceptingConnector(Spi.JoinApplicationResult(JoinedTable, LeftMapping, map[])));
      r.Fault? && ErrorMessage(r.error) == "Column handle mappings do not match old column handles"
  {
    var left := ScanA(MockCatalog, map[A2 := MultipleValues({44})]);
    var right := ScanB(MockCatalog, map[B1 := MultipleValues({45})]);
    var node := EquiJoin(Inner, left, right);
    var connector := AcceptingConnector(Spi.JoinApplicationResult(JoinedTable, LeftMapping, map[]));
    NegotiatesWhenEligible(node, EagerSession, NoEstimates);
    assert B1 in right.assignments && !CoversOldHandles(right, map[]);
    MissingMappingIsFatal(node, EagerSession, NoEstimates, connector);
  }

  /** Under AUTOMATIC, only (100, 200, 133) of the six estimate combinations of the test suite fires. */
  lemma AutomaticJoinPushdown(estimates: RowEstimates)
    requires estimates in {
      RowEstimates(Some(100.0), Some(200.0), Some(133.0)),
      RowEstimates(Some(100.0), Some(200.0), Some(134.0)),
      RowEstimates(None, Some(200.0), Some(250.0)),
      RowEstimates(Some(100.0), None, Some(250.0)),
      RowEstimates(Some(100.0), Some(200.0), None),
      RowEstimates(Some(100.0), Some(200.0), Some(301.0))}
    ensures
      var node := EquiJoin(Inner, ScanA(MockCatalog, map[]), ScanB(MockCatalog, map[]));
      var r := Apply(node, SessionConfig(Automatic, true), estimates, ExpectingConnector(Spi.Inner, Spi.Equal));
      r.Replaced? <==> estimates == RowEstimates(Some(100.0), Some(200.0), Some(133.0))
  {
  }

  /** Under EAGER, all six estimate combinations fire. */
  lemma EagerIgnoresTestedEstimates(estimates: RowEstimates)
    requires estimates in {
      RowEstimates(Some(100.0), Some(200.0), Some(133.0)),
      RowEstimates(Some(100.0), Some(200.0), Some(134.0)),
      RowEstimates(None, Some(200.0), Some(250.0)),
      RowEstimates(Some(100.0), None, Some(250.0)),
      RowEstimates(Some(100.0), Some(200.0), None),
      RowEstimates(Some(100.0), Some(200.0), Some(301.0))}
    ensures
      var node := EquiJoin(Inner, ScanA(MockCatalog, map[]), ScanB(MockCatalog, map[]));
      Apply(node, EagerSession, estimates, ExpectingConnector(Spi.Inner, Spi.Equal)).Replaced?
  {
  }
}
