/**
 * The join pushdown rule: a join of two table scans of the same catalog is offered to the
 * connector, and when the connector accepts, the join is replaced by one scan of the
 * relation the connector returns.
 */
module PushJoinIntoTableScan {
  import opened Wrappers
  import opened Domains
  import opened Expressions
  import opened Plan
  import opened CostGate
  import opened ConditionTranslation
  import Spi

  /** The two session properties the rule reads: join_pushdown and allow_pushdown_into_connectors. */
  datatype SessionConfig = SessionConfig(joinPushdown: JoinPushdownMode, allowPushdownIntoConnectors: bool)

  /** Either the rule does not apply, or it asks the connector this question. */
  datatype Decision = NotApplicable | Negotiate(request: Spi.JoinRequest)

  /** Why a rewrite aborts. */
  datatype RuleError =
    | MappingMismatch               // a returned column mapping misses an old column handle
    | InvalidMapping                // two old column handles were given the same new handle
    | ConnectorFailure(message: string)  // applyJoin itself failed

  /** The outcome of one application of the rule. */
  datatype RuleResult = NoChange | Replaced(scan: TableScan) | Fault(error: RuleError)

  const MappingMismatchMessage: string := "Column handle mappings do not match old column handles"

  function ErrorMessage(e: RuleError): string
  {
    match e
    case MappingMismatch => MappingMismatchMessage
    case InvalidMapping => "Column handle mappings are not one-to-one"
    case ConnectorFailure(message) => message
  }

  /** Pushdown is enabled when connectors may take pushdowns and join_pushdown is AUTOMATIC or EAGER. */
  predicate PushdownEnabled(config: SessionConfig)
    ensures PushdownEnabled(config) <==>
      config.allowPushdownIntoConnectors && (config.joinPushdown == Automatic || config.joinPushdown == Eager)
  {
    config.allowPushdownIntoConnectors && config.joinPushdown != Disabled
  }

  /**
   * The gates in front of the connector. A request is made only for a join of two scans of
   * one catalog, with pushdown enabled, that is not a cross join, whose filter translates,
   * and, under AUTOMATIC, whose estimates pass the cardinality gate. The request carries the
   * matching connector join type, both tables, both sides' assignments, and conditions that
   * hold of a pair of rows exactly when the join matches it.
   */
  function Decide(node: PlanNode, config: SessionConfig, estimates: RowEstimates): (d: Decision)
    ensures d.Negotiate? ==>
      && node.Join? && node.left.Scan? && node.right.Scan?
      && node.left.scan.table.catalog == node.right.scan.table.catalog
      && PushdownEnabled(config)
      && !IsCrossJoin(node.criteria, node.filter)
      && (node.filter.Some? ==>
            IsColumnComparison(node.filter.value, node.left.scan.assignments.Keys, node.right.scan.assignments.Keys))
      && (config.joinPushdown == Automatic ==> PushdownProfitable(estimates, AmplificationFactor))
    ensures d.Negotiate? ==>
      && d.request.joinType == ToSpiJoinType(node.joinType)
      && d.request.left == node.left.scan.table.connectorHandle
      && d.request.right == node.right.scan.table.connectorHandle
      && d.request.leftAssignments == node.left.scan.assignments
      && d.request.rightAssignments == node.right.scan.assignments
      && TranslateConditions(node.criteria, node.filter, node.left.scan.assignments.Keys, node.right.scan.assignments.Keys).Some?
      && d.request.conditions
           == TranslateConditions(node.criteria, node.filter, node.left.scan.assignments.Keys, node.right.scan.assignments.Keys).value
      && |d.request.conditions| == |node.criteria| + (if node.filter.Some? then 1 else 0)
      && (forall env: Env ::
            Spi.AllConditionsHold(d.request.conditions, env) <==> JoinMatches(node.criteria, node.filter, env))
  {
    match node
    case Join(joinType, Scan(left), Scan(right), criteria, filter) =>
      if left.table.catalog != right.table.catalog then NotApplicable
      else if !PushdownEnabled(config) then NotApplicable
      else if IsCrossJoin(criteria, filter) then NotApplicable
      else
        var conditions := TranslateConditions(criteria, filter, left.assignments.Keys, right.assignments.Keys);
        if conditions.None? then NotApplicable
        else if config.joinPushdown == Automatic && !PushdownProfitable(estimates, AmplificationFactor) then NotApplicable
        else Negotiate(Spi.JoinRequest(
          ToSpiJoinType(joinType),
          left.table.connectorHandle,
          right.table.connectorHandle,
          conditions.value,
          left.assignments,
          right.assignments))
    case _ => NotApplicable
  }

  /**
   * One application of the rule to a plan node, negotiating through `connector`: a declined
   * offer changes nothing, an exception of the connector aborts the rule, and an accepted
   * offer is rewritten from the connector's answer.
   */
  function Apply(node: PlanNode, config: SessionConfig, estimates: RowEstimates, connector: Spi.Connector): (r: RuleResult)
    ensures Decide(node, config, estimates).NotApplicable? ==> r == NoChange
    ensures var d := Decide(node, config, estimates);
      d.Negotiate? && connector(d.request).Declined? ==> r == NoChange
    ensures var d := Decide(node, config, estimates);
      d.Negotiate? && connector(d.request).Failed? ==> r == Fault(ConnectorFailure(connector(d.request).message))
    ensures var d := Decide(node, config, estimates);
      d.Negotiate? && connector(d.request).Accepted? ==>
        r == Rewrite(node.joinType, node.left.scan, node.right.scan, connector(d.request).result)
    ensures r.Fault? ==>
      && Decide(node, config, estimates).Negotiate?
      && !connector(Decide(node, config, estimates).request).Declined?
  {
    match Decide(node, config, estimates)
    case NotApplicable => NoChange
    case Negotiate(request) =>
      match connector(request)
      case Declined => NoChange
      case Failed(message) => Fault(ConnectorFailure(message))
      case Accepted(result) => Rewrite(node.joinType, node.left.scan, node.right.scan, result)
  }

  /** The mapping has a new handle for every column handle the scan reads. */
  predicate CoversOldHandles(scan: TableScan, mapping: map<ColumnHandle, ColumnHandle>)
    ensures CoversOldHandles(scan, mapping) <==> scan.assignments.Values <= mapping.Keys
  {
    forall s :: s in scan.assignments ==> scan.assignments[s] in mapping
  }

  /** No two old handles share a new one, within a side or across the two sides. */
  predicate OneToOne(result: Spi.JoinApplicationResult)
  {
    && Injective(result.leftColumnHandles)
    && Injective(result.rightColumnHandles)
    && result.leftColumnHandles.Values !! result.rightColumnHandles.Values
  }

  /**
   * Checks the connector's answer and builds the replacement scan: same catalog, the joined
   * table, the left's then the right's output symbols, each symbol reading the new handle of
   * its old one, and the merged enforced constraint. A mapping that misses an old handle
   * aborts the rewrite.
   */
  function Rewrite(joinType: JoinType, left: TableScan, right: TableScan, result: Spi.JoinApplicationResult): (r: RuleResult)
    ensures r.Fault? || r.Replaced?
    ensures r == Fault(MappingMismatch) <==>
      !(CoversOldHandles(left, result.leftColumnHandles) && CoversOldHandles(right, result.rightColumnHandles))
    ensures r.Replaced? <==>
      CoversOldHandles(left, result.leftColumnHandles) && CoversOldHandles(right, result.rightColumnHandles) && OneToOne(result)
    ensures r.Replaced? ==>
      && r.scan.table == TableHandle(left.table.catalog, result.tableHandle)
      && r.scan.outputSymbols == left.outputSymbols + right.outputSymbols
      && (forall s :: s in left.assignments && s !in right.assignments ==>
            s in r.scan.assignments && r.scan.assignments[s] == result.leftColumnHandles[left.assignments[s]])
      && (forall s :: s in right.assignments ==>
            s in r.scan.assignments && r.scan.assignments[s] == result.rightColumnHandles[right.assignments[s]])
      && r.scan.assignments.Keys == left.assignments.Keys + right.assignments.Keys
      && r.scan.enforcedConstraint == MergeConstraints(joinType, left.enforcedConstraint, right.enforcedConstraint,
                                                       result.leftColumnHandles, result.rightColumnHandles)
  {
    var lm, rm := result.leftColumnHandles, result.rightColumnHandles;
    if !(CoversOldHandles(left, lm) && CoversOldHandles(right, rm)) then Fault(MappingMismatch)
    else if !OneToOne(result) then Fault(InvalidMapping)
    else Replaced(TableScan(
      TableHandle(left.table.catalog, result.tableHandle),
      left.outputSymbols + right.outputSymbols,
      Reassign(left.assignments, lm) + Reassign(right.assignments, rm),
      MergeConstraints(joinType, left.enforcedConstraint, right.enforcedConstraint, lm, rm)))
  }

  /** Each symbol reads the new handle of the column handle it read before. */
  function Reassign(assignments: map<Symbol, ColumnHandle>, mapping: map<ColumnHandle, ColumnHandle>): (r: map<Symbol, ColumnHandle>)
    requires forall s :: s in assignments ==> assignments[s] in mapping
    ensures r.Keys == assignments.Keys
    ensures forall s :: s in assignments ==> r[s] == mapping[assignments[s]]
  {
    map s | s in assignments :: mapping[assignments[s]]
  }

  /**
   * The enforced constraint of the joined relation, keyed by the new column handles. Each
   * side's domains are carried over unchanged, except that on a side the join pads with
   * NULLs (the left for RIGHT and FULL, the right for LEFT and FULL) each domain also
   * accepts NULL. Only the old handles a mapping knows are carried over.
   */
  function MergeConstraints(joinType: JoinType, leftConstraint: Constraint, rightConstraint: Constraint,
                            leftMapping: map<ColumnHandle, ColumnHandle>, rightMapping: map<ColumnHandle, ColumnHandle>): (r: Constraint)
    requires Injective(leftMapping) && Injective(rightMapping)
    requires leftMapping.Values !! rightMapping.Values
    ensures forall h :: h in leftConstraint && h in leftMapping ==>
      leftMapping[h] in r && r[leftMapping[h]] == (if PadsLeft(joinType) then WithNull(leftConstraint[h]) else leftConstraint[h])
    ensures forall h :: h in rightConstraint && h in rightMapping ==>
      rightMapping[h] in r && r[rightMapping[h]] == (if PadsRight(joinType) then WithNull(rightConstraint[h]) else rightConstraint[h])
    ensures forall n :: n in r ==>
      (exists h :: h in leftConstraint && h in leftMapping && leftMapping[h] == n)
      || (exists h :: h in rightConstraint && h in rightMapping && rightMapping[h] == n)
    ensures r.Keys <= leftMapping.Values + rightMapping.Values
  {
    var l := Rename(WidenWithNull(leftConstraint, PadsLeft(joinType)), leftMapping);
    var r := Rename(WidenWithNull(rightConstraint, PadsRight(joinType)), rightMapping);
    l + r
  }

  // ---------------------------------------------------------------------------
  // When the rule does not fire

  /** Scans of two different catalogs are never offered to a connector. */
  lemma DoesNotFireAcrossCatalogs(node: PlanNode, config: SessionConfig, estimates: RowEstimates, connector: Spi.Connector)
    requires node.Join? && node.left.Scan? && node.right.Scan?
    requires node.left.scan.table.catalog != node.right.scan.table.catalog
    ensures Decide(node, config, estimates) == NotApplicable
    ensures Apply(node, config, estimates, connector) == NoChange
  {
  }

  /** With join_pushdown=DISABLED, or with allow_pushdown_into_connectors=false, nothing is offered. */
  lemma DoesNotFireWhenDisabled(node: PlanNode, config: SessionConfig, estimates: RowEstimates, connector: Spi.Connector)
    requires config.joinPushdown == Disabled || !config.allowPushdownIntoConnectors
    ensures Decide(node, config, estimates) == NotApplicable
    ensures Apply(node, config, estimates, connector) == NoChange
  {
  }

  /** A cross join is never offered. */
  lemma DoesNotFireForCrossJoin(node: PlanNode, config: SessionConfig, estimates: RowEstimates, connector: Spi.Connector)
    requires node.Join? && IsCrossJoin(node.criteria, node.filter)
    ensures Decide(node, config, estimates) == NotApplicable
    ensures Apply(node, config, estimates, connector) == NoChange
  {
  }

  /** A filter that is not a comparison between a left and a right column is never offered. */
  lemma DoesNotFireForUnsupportedFilter(node: PlanNode, config: SessionConfig, estimates: RowEstimates, connector: Spi.Connector)
    requires node.Join? && node.left.Scan? && node.right.Scan? && node.filter.Some?
    requires !IsColumnComparison(node.filter.value, node.left.scan.assignments.Keys, node.right.scan.assignments.Keys)
    ensures Decide(node, config, estimates) == NotApplicable
    ensures Apply(node, config, estimates, connector) == NoChange
  {
  }

  /** Under AUTOMATIC, estimates that fail the cardinality gate (an unknown one included) stop the rule. */
  lemma DoesNotFireWhenUnprofitable(node: PlanNode, config: SessionConfig, estimates: RowEstimates, connector: Spi.Connector)
    requires config.joinPushdown == Automatic
    requires !PushdownProfitable(estimates, AmplificationFactor)
    ensures Decide(node, config, estimates) == NotApplicable
    ensures Apply(node, config, estimates, connector) == NoChange
  {
  }

  /** Under EAGER the estimates play no part. */
  lemma EagerIgnoresEstimates(node: PlanNode, config: SessionConfig, e1: RowEstimates, e2: RowEstimates, connector: Spi.Connector)
    requires config.joinPushdown == Eager
    ensures Decide(node, config, e1) == Decide(node, config, e2)
    ensures Apply(node, config, e1, connector) == Apply(node, config, e2, connector)
  {
  }

  /** The rule's own output is a scan, not a join, so the rule never applies to it again. */
  lemma NotRetriggeredOnItsOutput(node: PlanNode, config: SessionConfig, estimates: RowEstimates, connector: Spi.Connector)
    ensures Apply(node, config, estimates, connector).Replaced? ==>
      Apply(Scan(Apply(node, config, estimates, connector).scan), config, estimates, connector) == NoChange
  {
  }

  // ---------------------------------------------------------------------------
  // When the rule fires

  /**
   * Every gate passed means the connector is asked: the gates in `Decide`'s contract are
   * not only necessary but also sufficient.
   */
  lemma NegotiatesWhenEligible(node: PlanNode, config: SessionConfig, estimates: RowEstimates)
    requires node.Join? && node.left.Scan? && node.right.Scan?
    requires node.left.scan.table.catalog == node.right.scan.table.catalog
    requires PushdownEnabled(config)
    requires !IsCrossJoin(node.criteria, node.filter)
    requires node.filter.Some? ==>
      IsColumnComparison(node.filter.value, node.left.scan.assignments.Keys, node.right.scan.assignments.Keys)
    requires config.joinPushdown == Automatic ==> PushdownProfitable(estimates, AmplificationFactor)
    ensures Decide(node, config, estimates).Negotiate?
  {
  }

  /**
   * The join is replaced exactly when the connector is asked, accepts, and returns column
   * mappings that cover every old handle one-to-one.
   */
  lemma FiresExactlyWhenAccepted(node: PlanNode, config: SessionConfig, estimates: RowEstimates, connector: Spi.Connector)
    ensures Apply(node, config, estimates, connector).Replaced? <==>
      && Decide(node, config, estimates).Negotiate?
      && var reply := connector(Decide(node, config, estimates).request);
      && reply.Accepted?
      && CoversOldHandles(node.left.scan, reply.result.leftColumnHandles)
      && CoversOldHandles(node.right.scan, reply.result.rightColumnHandles)
      && OneToOne(reply.result)
  {
  }

  /**
   * An accepted join whose column mappings miss an old handle aborts with the mapping
   * error; the rule does not quietly decline.
   */
  lemma MissingMappingIsFatal(node: PlanNode, config: SessionConfig, estimates: RowEstimates, connector: Spi.Connector)
    requires Decide(node, config, estimates).Negotiate?
    requires connector(Decide(node, config, estimates).request).Accepted?
    requires var result := connector(Decide(node, config, estimates).request).result;
      !CoversOldHandles(node.left.scan, result.leftColumnHandles) || !CoversOldHandles(node.right.scan, result.rightColumnHandles)
    ensures Apply(node, config, estimates, connector) == Fault(MappingMismatch)
    ensures ErrorMessage(Apply(node, config, estimates, connector).error) == "Column handle mappings do not match old column handles"
  {
  }

  // ---------------------------------------------------------------------------
  // The merged enforced constraint is sound for every row the join produces

  /** A matched pair of rows, each satisfying its side's constraint, satisfies the merged constraint for every join type. */
  lemma {:induction false} MatchedRowsSatisfyMerged(joinType: JoinType, leftConstraint: Constraint, rightConstraint: Constraint,
                                                    leftMapping: map<ColumnHandle, ColumnHandle>, rightMapping: map<ColumnHandle, ColumnHandle>,
                                                    leftRow: Row, rightRow: Row)
    requires Injective(leftMapping) && Injective(rightMapping) && leftMapping.Values !! rightMapping.Values
    requires Satisfies(leftRow, leftConstraint) && Satisfies(rightRow, rightConstraint)
    ensures Satisfies(Rename(leftRow, leftMapping) + Rename(rightRow, rightMapping),
                      MergeConstraints(joinType, leftConstraint, rightConstraint, leftMapping, rightMapping))
  {
    var merged := MergeConstraints(joinType, leftConstraint, rightConstraint, leftMapping, rightMapping);
    var row := Rename(leftRow, leftMapping) + Rename(rightRow, rightMapping);
    forall n | n in merged ensures n in row && Contains(merged[n], row[n]) {
      if h :| h in leftConstraint && h in leftMapping && leftMapping[h] == n {
        MatchedLeftColumn(joinType, leftConstraint, rightConstraint, leftMapping, rightMapping, leftRow, rightRow, h);
      } else {
        var h :| h in rightConstraint && h in rightMapping && rightMapping[h] == n;
        MatchedRightColumn(joinType, leftConstraint, rightConstraint, leftMapping, rightMapping, leftRow, rightRow, h);
      }
    }
  }

  lemma MatchedLeftColumn(joinType: JoinType, leftConstraint: Constraint, rightConstraint: Constraint,
                          leftMapping: map<ColumnHandle, ColumnHandle>, rightMapping: map<ColumnHandle, ColumnHandle>,
                          leftRow: Row, rightRow: Row, h: ColumnHandle)
    requires Injective(leftMapping) && Injective(rightMapping) && leftMapping.Values !! rightMapping.Values
    requires h in leftConstraint && h in leftMapping && h in leftRow && Contains(leftConstraint[h], leftRow[h])
    ensures var row := Rename(leftRow, leftMapping) + Rename(rightRow, rightMapping);
      leftMapping[h] in row
      && Contains(MergeConstraints(joinType, leftConstraint, rightConstraint, leftMapping, rightMapping)[leftMapping[h]], row[leftMapping[h]])
  {
    var n := leftMapping[h];
    assert n in leftMapping.Values;
    assert n !in Rename(rightRow, rightMapping);
  }

  lemma MatchedRightColumn(joinType: JoinType, leftConstraint: Constraint, rightConstraint: Constraint,
                           leftMapping: map<ColumnHandle, ColumnHandle>, rightMapping: map<ColumnHandle, ColumnHandle>,
                           leftRow: Row, rightRow: Row, h: ColumnHandle)
    requires Injective(leftMapping) && Injective(rightMapping) && leftMapping.Values !! rightMapping.Values
    requires h in rightConstraint && h in rightMapping && h in rightRow && Contains(rightConstraint[h], rightRow[h])
    ensures var row := Rename(leftRow, leftMapping) + Rename(rightRow, rightMapping);
      rightMapping[h] in row
      && Contains(MergeConstraints(joinType, leftConstraint, rightConstraint, leftMapping, rightMapping)[rightMapping[h]], row[rightMapping[h]])
  {
  }

  /** Under LEFT and FULL, an unmatched left row padded with NULLs satisfies the merged constraint. */
  lemma {:induction false} UnmatchedLeftRowsSatisfyMerged(joinType: JoinType, leftConstraint: Constraint, rightConstraint: Constraint,
                                                          leftMapping: map<ColumnHandle, ColumnHandle>, rightMapping: map<ColumnHandle, ColumnHandle>,
                                                          leftRow: Row)
    requires PadsRight(joinType)
    requires Injective(leftMapping) && Injective(rightMapping) && leftMapping.Values !! rightMapping.Values
    requires Satisfies(leftRow, leftConstraint)
    ensures Satisfies(Rename(leftRow, leftMapping) + NullRow(rightMapping.Values),
                      MergeConstraints(joinType, leftConstraint, rightConstraint, leftMapping, rightMapping))
  {
    var merged := MergeConstraints(joinType, leftConstraint, rightConstraint, leftMapping, rightMapping);
    var row := Rename(leftRow, leftMapping) + NullRow(rightMapping.Values);
    forall n | n in merged ensures n in row && Contains(merged[n], row[n]) {
      if h :| h in leftConstraint && h in leftMapping && leftMapping[h] == n {
        assert row[n] == leftRow[h];
      } else {
        var h :| h in rightConstraint && h in rightMapping && rightMapping[h] == n;
        assert n in rightMapping.Values;
        assert row[n] == None;
      }
    }
  }

  /** Under RIGHT and FULL, an unmatched right row padded with NULLs satisfies the merged constraint. */
  lemma {:induction false} UnmatchedRightRowsSatisfyMerged(joinType: JoinType, leftConstraint: Constraint, rightConstraint: Constraint,
                                                           leftMapping: map<ColumnHandle, ColumnHandle>, rightMapping: map<ColumnHandle, ColumnHandle>,
                                                           rightRow: Row)
    requires PadsLeft(joinType)
    requires Injective(leftMapping) && Injective(rightMapping) && leftMapping.Values !! rightMapping.Values
    requires Satisfies(rightRow, rightConstraint)
    ensures Satisfies(NullRow(leftMapping.Values) + Rename(rightRow, rightMapping),
                      MergeConstraints(joinType, leftConstraint, rightConstraint, leftMapping, rightMapping))
  {
    var merged := MergeConstraints(joinType, leftConstraint, rightConstraint, leftMapping, rightMapping);
    var row := NullRow(leftMapping.Values) + Rename(rightRow, rightMapping);
    forall n | n in merged ensures n in row && Contains(merged[n], row[n]) {
      if h :| h in leftConstraint && h in leftMapping && leftMapping[h] == n {
        assert n in leftMapping.Values;
        assert n !in Rename(rightRow, rightMapping);
        assert row[n] == None;
      } else {
        var h :| h in rightConstraint && h in rightMapping && rightMapping[h] == n;
        assert row[n] == rightRow[h];
      }
    }
  }

  /**
   * The widening is needed: on a side the join type does not pad, a NULL-padded row breaks
   * the merged constraint as soon as one of that side's carried-over domains rejects NULL.
   */
  lemma {:induction false} PaddingWithoutWideningIsUnsound(joinType: JoinType, leftConstraint: Constraint, rightConstraint: Constraint,
                                                           leftMapping: map<ColumnHandle, ColumnHandle>, rightMapping: map<ColumnHandle, ColumnHandle>,
                                                           leftRow: Row, h: ColumnHandle)
    requires !PadsRight(joinType)
    requires Injective(leftMapping) && Injective(rightMapping) && leftMapping.Values !! rightMapping.Values
    requires h in rightConstraint && h in rightMapping && !Contains(rightConstraint[h], None)
    ensures !Satisfies(Rename(leftRow, leftMapping) + NullRow(rightMapping.Values),
                       MergeConstraints(joinType, leftConstraint, rightConstraint, leftMapping, rightMapping))
  {
    var merged := MergeConstraints(joinType, leftConstraint, rightConstraint, leftMapping, rightMapping);
    var row := Rename(leftRow, leftMapping) + NullRow(rightMapping.Values);
    var n := rightMapping[h];
    assert n in rightMapping.Values;
    assert merged[n] == rightConstraint[h];
    assert row[n] == None;
  }

  /** When each mapping knows exactly the handles its side constrains, the merged constraint constrains exactly the new handles. */
  lemma {:induction false} MergedKeysAreNewHandles(joinType: JoinType, leftConstraint: Constraint, rightConstraint: Constraint,
                                                   leftMapping: map<ColumnHandle, ColumnHandle>, rightMapping: map<ColumnHandle, ColumnHandle>)
    requires Injective(leftMapping) && Injective(rightMapping) && leftMapping.Values !! rightMapping.Values
    requires leftConstraint.Keys == leftMapping.Keys && rightConstraint.Keys == rightMapping.Keys
    ensures MergeConstraints(joinType, leftConstraint, rightConstraint, leftMapping, rightMapping).Keys
      == leftMapping.Values + rightMapping.Values
  {
    var merged := MergeConstraints(joinType, leftConstraint, rightConstraint, leftMapping, rightMapping);
    forall n | n in leftMapping.Values + rightMapping.Values ensures n in merged {
      if n in leftMapping.Values {
        var h :| h in leftMapping && leftMapping[h] == n;
        assert h in leftConstraint;
      } else {
        var h :| h in rightMapping && rightMapping[h] == n;
        assert h in rightConstraint;
      }
    }
  }
}
