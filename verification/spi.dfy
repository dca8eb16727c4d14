/**
 * The connector-facing side of join pushdown: the connector's join types, join conditions
 * decoupled from plan expressions, the negotiation request, and the connector's reply.
 */
module Spi {
  import opened Wrappers
  import opened Domains

  /** The join types a connector is asked to perform. */
  datatype JoinType = Inner | LeftOuter | RightOuter | FullOuter

  /** Rows of the left table that find no partner still appear, padded with NULLs on the right. */
  predicate KeepsUnmatchedLeft(t: JoinType)
  {
    t == LeftOuter || t == FullOuter
  }

  /** Rows of the right table that find no partner still appear, padded with NULLs on the left. */
  predicate KeepsUnmatchedRight(t: JoinType)
  {
    t == RightOuter || t == FullOuter
  }

  /** The operators a connector-side join condition may use. */
  datatype ConditionOperator =
    | Equal | NotEqual | LessThan | LessThanOrEqual | GreaterThan | GreaterThanOrEqual | IsDistinctFrom

  /** A column of one of the joined relations, named after the plan symbol that reads it. */
  datatype Variable = Variable(name: string)

  /** `left operator right`, the left variable from the left table and the right from the right. */
  datatype JoinCondition = JoinCondition(operator: ConditionOperator, left: Variable, right: Variable)

  /**
   * What a condition operator means to the connector, in SQL's three-valued logic. The
   * connector reads its conditions on its own terms, independently of the engine's
   * expressions; that the two readings agree is what the operator translation proves.
   */
  function Evaluate(op: ConditionOperator, x: Value, y: Value): Option<bool>
  {
    if op == IsDistinctFrom then Some(x != y)
    else if x == None || y == None then None
    else Some(Compare(op, x.value, y.value))
  }

  /** An ordinary comparison operator applied to two non-null values. */
  function Compare(op: ConditionOperator, a: int, b: int): bool
    requires op != IsDistinctFrom
  {
    match op
    case Equal => a == b
    case NotEqual => a != b
    case LessThan => a < b
    case LessThanOrEqual => a <= b
    case GreaterThan => a > b
    case GreaterThanOrEqual => a >= b
  }

  /** A pair of rows, given as the values of their variables, joins only where every condition is TRUE. */
  predicate AllConditionsHold(conditions: seq<JoinCondition>, values: map<string, Value>)
  {
    forall i :: 0 <= i < |conditions| ==>
      var c := conditions[i];
      Evaluate(c.operator, ValueOf(values, c.left), ValueOf(values, c.right)) == Some(true)
  }

  /**
   * The value of a variable in the connector's view of a pair of rows; a variable it does
   * not know reads as NULL. Kept on the connector side so that this module does not depend
   * on plan expressions.
   */
  function ValueOf(values: map<string, Value>, v: Variable): Value
  {
    if v.name in values then values[v.name] else None
  }

  /** The connector's own handle of a table: the schema-qualified table name. */
  datatype ConnectorTableHandle = ConnectorTableHandle(schema: string, table: string)

  /** Everything the engine hands to the connector's applyJoin. */
  datatype JoinRequest = JoinRequest(
    joinType: JoinType,
    left: ConnectorTableHandle,
    right: ConnectorTableHandle,
    conditions: seq<JoinCondition>,
    leftAssignments: map<string, ColumnHandle>,
    rightAssignments: map<string, ColumnHandle>)

  /**
   * A connector's acceptance: the handle of the joined relation and, per side, the new
   * column handle of each old one.
   */
  datatype JoinApplicationResult = JoinApplicationResult(
    tableHandle: ConnectorTableHandle,
    leftColumnHandles: map<ColumnHandle, ColumnHandle>,
    rightColumnHandles: map<ColumnHandle, ColumnHandle>)

  /** applyJoin either declines (an empty optional), accepts, or fails with an exception. */
  datatype Reply = Declined | Accepted(result: JoinApplicationResult) | Failed(message: string)

  /** A connector's applyJoin, the one capability join pushdown negotiates through. */
  type Connector = JoinRequest -> Reply
}
