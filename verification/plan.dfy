/** The plan nodes join pushdown reads and produces: table scans and joins. */
module Plan {
  import opened Wrappers
  import opened Domains
  import opened Expressions
  import Spi

  /** The join types of a plan join node. */
  datatype JoinType = Inner | Left | Right | Full

  /** Unmatched left rows are kept, so the right side's columns may be NULL. */
  predicate PadsRight(t: JoinType)
  {
    t == Left || t == Full
  }

  /** Unmatched right rows are kept, so the left side's columns may be NULL. */
  predicate PadsLeft(t: JoinType)
  {
    t == Right || t == Full
  }

  /** A table handle as the engine holds it: the catalog it belongs to and the connector's handle. */
  datatype TableHandle = TableHandle(catalog: string, connectorHandle: Spi.ConnectorTableHandle)

  /**
   * A table scan: its output symbols in order, the column handle each symbol reads, and the
   * constraint the connector already guarantees of every row it returns.
   */
  datatype TableScan = TableScan(
    table: TableHandle,
    outputSymbols: seq<Symbol>,
    assignments: map<Symbol, ColumnHandle>,
    enforcedConstraint: Constraint)

  /** `left = right`, the left symbol from the left input and the right from the right. */
  datatype EquiJoinClause = EquiJoinClause(left: Symbol, right: Symbol)

  datatype PlanNode =
    | Scan(scan: TableScan)
    | Join(joinType: JoinType, left: PlanNode, right: PlanNode, criteria: seq<EquiJoinClause>, filter: Option<Expr>)

  /** A join with neither equi-join clauses nor a filter pairs every left row with every right row. */
  predicate IsCrossJoin(criteria: seq<EquiJoinClause>, filter: Option<Expr>)
    ensures IsCrossJoin(criteria, filter) ==> forall env :: JoinMatches(criteria, filter, env)
    ensures IsCrossJoin(criteria, filter) <==> |criteria| == 0 && filter.None?
  {
    criteria == [] && filter == None
  }

  /** A left row and a right row (their symbols' values in `env`) match when every clause and the filter are TRUE. */
  predicate JoinMatches(criteria: seq<EquiJoinClause>, filter: Option<Expr>, env: Env)
  {
    && (forall i :: 0 <= i < |criteria| ==>
          EvalComparison(Equal, Lookup(env, criteria[i].left), Lookup(env, criteria[i].right)) == Some(true))
    && (filter.Some? ==> EvalPredicate(filter.value, env) == Some(true))
  }
}
