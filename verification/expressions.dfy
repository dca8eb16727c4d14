/**
 * Plan-level expressions as they appear in a join filter: symbol references, BIGINT
 * literals, multiplication, comparisons and conjunction, with SQL's three-valued meaning.
 */
module Expressions {
  import opened Wrappers
  import opened Domains

  /** A plan symbol, identified by its name. */
  type Symbol = string

  /** The operators of a comparison expression. */
  datatype ComparisonOperator =
    | Equal | NotEqual | LessThan | LessThanOrEqual | GreaterThan | GreaterThanOrEqual | IsDistinctFrom

  datatype Expr =
    | SymbolReference(name: Symbol)
    | Literal(value: int)
    | Multiply(left: Expr, right: Expr)
    | Comparison(operator: ComparisonOperator, left: Expr, right: Expr)
    | And(left: Expr, right: Expr)

  /** Values of the symbols in scope; a symbol that is not bound reads as NULL. */
  type Env = map<Symbol, Value>

  function Lookup(env: Env, s: Symbol): Value
  {
    if s in env then env[s] else None
  }

  /**
   * The SQL meaning of a comparison: UNKNOWN (`None`) when an operand is NULL, except for
   * IS DISTINCT FROM, which treats two NULLs as equal and NULL as distinct from any value.
   */
  function EvalComparison(op: ComparisonOperator, x: Value, y: Value): Option<bool>
  {
    match op
    case IsDistinctFrom => Some(x != y)
    case _ =>
      if x.None? || y.None? then None
      else
        var a, b := x.value, y.value;
        Some(match op
          case Equal => a == b
          case NotEqual => a != b
          case LessThan => a < b
          case LessThanOrEqual => a <= b
          case GreaterThan => a > b
          case GreaterThanOrEqual => a >= b)
  }

  /** The operator that gives the same answer with its operands swapped. */
  function Flip(op: ComparisonOperator): (r: ComparisonOperator)
    ensures forall x, y :: EvalComparison(r, y, x) == EvalComparison(op, x, y)
  {
    match op
    case Equal => Equal
    case NotEqual => NotEqual
    case LessThan => GreaterThan
    case LessThanOrEqual => GreaterThanOrEqual
    case GreaterThan => LessThan
    case GreaterThanOrEqual => LessThanOrEqual
    case IsDistinctFrom => IsDistinctFrom
  }

  /** The value of a BIGINT expression; NULL propagates through multiplication. */
  function EvalScalar(e: Expr, env: Env): Value
  {
    match e
    case SymbolReference(s) => Lookup(env, s)
    case Literal(v) => Some(v)
    case Multiply(a, b) =>
      var x, y := EvalScalar(a, env), EvalScalar(b, env);
      if x.Some? && y.Some? then Some(x.value * y.value) else None
    case Comparison(_, _, _) => None
    case And(_, _) => None
  }

  /** The three-valued truth of a boolean expression (`None` is UNKNOWN). */
  function EvalPredicate(e: Expr, env: Env): Option<bool>
  {
    match e
    case Comparison(op, a, b) => EvalComparison(op, EvalScalar(a, env), EvalScalar(b, env))
    case And(a, b) =>
      var p, q := EvalPredicate(a, env), EvalPredicate(b, env);
      if p == Some(false) || q == Some(false) then Some(false)
      else if p == Some(true) && q == Some(true) then Some(true)
      else None
    case _ => None
  }
}
