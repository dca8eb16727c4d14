/**
 * Translation of a plan join into the connector's terms: the join type, and the join
 * conditions built from the equi-join clauses and the filter.
 */
module ConditionTranslation {
  import opened Wrappers
  import opened Expressions
  import Plan
  import Spi

  /**
   * The connector join type of a plan join type: the one that keeps the same unmatched
   * rows (INNER to INNER, LEFT to LEFT_OUTER, RIGHT to RIGHT_OUTER, FULL to FULL_OUTER).
   */
  function ToSpiJoinType(t: Plan.JoinType): (r: Spi.JoinType)
    ensures Spi.KeepsUnmatchedLeft(r) == Plan.PadsRight(t)
    ensures Spi.KeepsUnmatchedRight(r) == Plan.PadsLeft(t)
  {
    match t
    case Inner => Spi.Inner
    case Left => Spi.LeftOuter
    case Right => Spi.RightOuter
    case Full => Spi.FullOuter
  }

  /** Distinct plan join types reach the connector as distinct join types, and every connector join type is reached. */
  lemma ToSpiJoinTypeIsBijective(s: Spi.JoinType)
    ensures forall t1, t2 :: ToSpiJoinType(t1) == ToSpiJoinType(t2) ==> t1 == t2
    ensures exists t :: ToSpiJoinType(t) == s
  {
    var t := match s
      case Inner => Plan.Inner
      case LeftOuter => Plan.Left
      case RightOuter => Plan.Right
      case FullOuter => Plan.Full;
    assert ToSpiJoinType(t) == s;
  }

  /** The connector operator that means the same as a plan comparison operator. */
  function GetConditionOperator(op: ComparisonOperator): (r: Spi.ConditionOperator)
    ensures forall x, y :: Spi.Evaluate(r, x, y) == EvalComparison(op, x, y)
  {
    match op
    case Equal => Spi.Equal
    case NotEqual => Spi.NotEqual
    case LessThan => Spi.LessThan
    case LessThanOrEqual => Spi.LessThanOrEqual
    case GreaterThan => Spi.GreaterThan
    case GreaterThanOrEqual => Spi.GreaterThanOrEqual
    case IsDistinctFrom => Spi.IsDistinctFrom
  }

  /** Distinct plan operators reach the connector as distinct operators. */
  lemma GetConditionOperatorIsInjective(op1: ComparisonOperator, op2: ComparisonOperator)
    requires GetConditionOperator(op1) == GetConditionOperator(op2)
    ensures op1 == op2
  {
    var x, y := Some(0), Some(1);
    assert EvalComparison(op1, x, y) == EvalComparison(op2, x, y);
    assert EvalComparison(op1, y, x) == EvalComparison(op2, y, x);
    assert EvalComparison(op1, x, x) == EvalComparison(op2, x, x);
    assert EvalComparison(op1, None, x) == EvalComparison(op2, None, x);
  }

  /** A comparison between two bare symbol references, one from each side of the join, in either order. */
  predicate IsColumnComparison(filter: Expr, leftSymbols: set<Symbol>, rightSymbols: set<Symbol>)
  {
    && filter.Comparison?
    && filter.left.SymbolReference?
    && filter.right.SymbolReference?
    && ((filter.left.name in leftSymbols && filter.right.name in rightSymbols)
        || (filter.left.name in rightSymbols && filter.right.name in leftSymbols))
  }

  /** The values of the symbols, seen as the values of the connector variables of the same names. */
  lemma ValuesAreVariables(env: Env, name: Symbol)
    ensures Spi.ValueOf(env, Spi.Variable(name)) == Lookup(env, name)
  {
  }

  /**
   * The join condition of a filter: defined exactly for a comparison between a left and a
   * right column, with its left variable on the left side and the same meaning as the filter.
   */
  function TranslateFilter(filter: Expr, leftSymbols: set<Symbol>, rightSymbols: set<Symbol>): (r: Option<Spi.JoinCondition>)
    ensures r.Some? <==> IsColumnComparison(filter, leftSymbols, rightSymbols)
    ensures r.Some? ==> r.value.left.name in leftSymbols && r.value.right.name in rightSymbols
    ensures r.Some? ==> forall env: Env ::
      Spi.Evaluate(r.value.operator, Spi.ValueOf(env, r.value.left), Spi.ValueOf(env, r.value.right))
        == EvalPredicate(filter, env)
  {
    if !IsColumnComparison(filter, leftSymbols, rightSymbols) then None
    else
      var a, b := filter.left.name, filter.right.name;
      if a in leftSymbols && b in rightSymbols then
        Some(Spi.JoinCondition(GetConditionOperator(filter.operator), Spi.Variable(a), Spi.Variable(b)))
      else
        Some(Spi.JoinCondition(GetConditionOperator(Flip(filter.operator)), Spi.Variable(b), Spi.Variable(a)))
  }

  /** The EQUAL condition of an equi-join clause. */
  function ClauseCondition(clause: Plan.EquiJoinClause): Spi.JoinCondition
  {
    Spi.JoinCondition(Spi.Equal, Spi.Variable(clause.left), Spi.Variable(clause.right))
  }

  /**
   * The conditions handed to the connector: one EQUAL condition per equi-join clause, in
   * order, then the filter's condition. Undefined exactly when the filter does not translate;
   * when defined, a pair of rows satisfies all conditions exactly when the join matches it.
   */
  function TranslateConditions(criteria: seq<Plan.EquiJoinClause>, filter: Option<Expr>, leftSymbols: set<Symbol>, rightSymbols: set<Symbol>): (r: Option<seq<Spi.JoinCondition>>)
    ensures r.Some? <==> (filter.None? || IsColumnComparison(filter.value, leftSymbols, rightSymbols))
    ensures r.Some? ==> |r.value| == |criteria| + (if filter.Some? then 1 else 0)
    ensures r.Some? ==> forall i :: 0 <= i < |criteria| ==> r.value[i] == ClauseCondition(criteria[i])
    ensures r.Some? && filter.Some? ==> r.value[|criteria|] == TranslateFilter(filter.value, leftSymbols, rightSymbols).value
    ensures r.Some? ==> forall env: Env ::
      Spi.AllConditionsHold(r.value, env) <==> Plan.JoinMatches(criteria, filter, env)
  {
    var equalities := seq(|criteria|, i requires 0 <= i < |criteria| => ClauseCondition(criteria[i]));
    match filter
    case None =>
      assert forall env: Env :: Spi.AllConditionsHold(equalities, env) <==> Plan.JoinMatches(criteria, filter, env) by {
        forall env: Env ensures Spi.AllConditionsHold(equalities, env) <==> Plan.JoinMatches(criteria, filter, env) {
          ConditionsMatchClauses(criteria, equalities, env);
        }
      }
      Some(equalities)
    case Some(f) =>
      var c := TranslateFilter(f, leftSymbols, rightSymbols);
      if c.None? then None
      else
        var all := equalities + [c.value];
        assert forall env: Env :: Spi.AllConditionsHold(all, env) <==> Plan.JoinMatches(criteria, filter, env) by {
          forall env: Env ensures Spi.AllConditionsHold(all, env) <==> Plan.JoinMatches(criteria, filter, env) {
            ConditionsMatchClauses(criteria, equalities, env);
            assert all[..|criteria|] == equalities;
            assert all[|criteria|] == c.value;
          }
        }
        Some(all)
  }

  /** The EQUAL conditions of the clauses hold exactly when every clause is TRUE. */
  lemma ConditionsMatchClauses(criteria: seq<Plan.EquiJoinClause>, equalities: seq<Spi.JoinCondition>, env: Env)
    requires |equalities| == |criteria|
    requires forall i :: 0 <= i < |criteria| ==> equalities[i] == ClauseCondition(criteria[i])
    ensures Spi.AllConditionsHold(equalities, env) <==>
      forall i :: 0 <= i < |criteria| ==>
        EvalComparison(Equal, Lookup(env, criteria[i].left), Lookup(env, criteria[i].right)) == Some(true)
  {
  }
}
