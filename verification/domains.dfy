/**
 * The part of the constraint algebra that join pushdown needs: per-column domains over
 * BIGINT values with SQL NULL, their union, the null-only domain, and constraints that
 * map column handles to domains (a tuple domain given by its column domains).
 */
module Domains {
  import opened Wrappers

  /** A column value: `None` is SQL NULL. */
  type Value = Option<int>

  /** The non-null part of a domain: every value, or a finite set of values. */
  datatype ValueSet = AllValues | Discrete(values: set<int>)

  /** A domain is a set of non-null values plus a flag saying whether NULL is allowed. */
  datatype Domain = Domain(values: ValueSet, nullAllowed: bool)

  predicate InValueSet(vs: ValueSet, x: int)
  {
    match vs
    case AllValues => true
    case Discrete(s) => x in s
  }

  /** The meaning of a domain: the column values it accepts. */
  predicate Contains(d: Domain, v: Value)
  {
    match v
    case None => d.nullAllowed
    case Some(x) => InValueSet(d.values, x)
  }

  /** Every value, NULL included. */
  function All(): (d: Domain)
    ensures forall v :: Contains(d, v)
  {
    Domain(AllValues, true)
  }

  /** Exactly the NULL value. */
  function OnlyNull(): (d: Domain)
    ensures forall v :: Contains(d, v) <==> v == None
  {
    Domain(Discrete({}), true)
  }

  /** The given non-null values and nothing else. */
  function MultipleValues(xs: set<int>): (d: Domain)
    ensures forall x :: Contains(d, Some(x)) <==> x in xs
    ensures !Contains(d, None)
  {
    Domain(Discrete(xs), false)
  }

  function UnionValueSets(a: ValueSet, b: ValueSet): (r: ValueSet)
    ensures forall x :: InValueSet(r, x) <==> InValueSet(a, x) || InValueSet(b, x)
  {
    match (a, b)
    case (AllValues, _) => AllValues
    case (_, AllValues) => AllValues
    case (Discrete(s), Discrete(t)) => Discrete(s + t)
  }

  /** Set union of the accepted values. */
  function Union(a: Domain, b: Domain): (r: Domain)
    ensures forall v :: Contains(r, v) <==> Contains(a, v) || Contains(b, v)
  {
    Domain(UnionValueSets(a.values, b.values), a.nullAllowed || b.nullAllowed)
  }

  /** Two domains are equal exactly when they accept the same values: the representation is canonical. */
  lemma {:induction false} ExtensionalEquality(a: Domain, b: Domain)
    requires forall v :: Contains(a, v) <==> Contains(b, v)
    ensures a == b
  {
    assert a.nullAllowed == b.nullAllowed by {
      assert Contains(a, None) <==> Contains(b, None);
    }
    match (a.values, b.values)
    case (AllValues, AllValues) =>
    case (Discrete(s), Discrete(t)) =>
      forall x ensures x in s <==> x in t {
        assert Contains(a, Some(x)) <==> Contains(b, Some(x));
      }
      assert s == t;
    case (AllValues, Discrete(t)) =>
      assert Contains(a, Some(UpperBound(t)));
    case (Discrete(s), AllValues) =>
      assert Contains(b, Some(UpperBound(s)));
  }

  /** An integer above every element of a finite set, hence outside it. */
  ghost function UpperBound(s: set<int>): (b: int)
    ensures forall x :: x in s ==> x < b
    decreases s
  {
    if s == {} then 0 else
      assert exists m :: m in s by {
        if forall m :: m !in s { assert false; }
      }
      var m :| m in s;
      var rest := UpperBound(s - {m});
      assert forall x :: x in s ==> x == m || x in s - {m};
      if rest <= m then m + 1 else rest
  }

  /** Union is commutative, associative and idempotent: domains form a join semilattice. */
  lemma UnionLaws(a: Domain, b: Domain, c: Domain)
    ensures Union(a, b) == Union(b, a)
    ensures Union(Union(a, b), c) == Union(a, Union(b, c))
    ensures Union(a, a) == a
  {
    ExtensionalEquality(Union(a, b), Union(b, a));
    ExtensionalEquality(Union(Union(a, b), c), Union(a, Union(b, c)));
    ExtensionalEquality(Union(a, a), a);
  }

  /** ALL absorbs every domain; the empty domain is the unit of union. */
  lemma UnionBounds(d: Domain)
    ensures Union(All(), d) == All()
    ensures Union(MultipleValues({}), d) == d
  {
    ExtensionalEquality(Union(All(), d), All());
    ExtensionalEquality(Union(MultipleValues({}), d), d);
  }

  /**
   * Widening a domain with NULL (what an outer join does to the columns of its
   * null-padded side): NULL becomes accepted and the non-null values are unchanged.
   */
  function WithNull(d: Domain): (r: Domain)
    ensures Contains(r, None)
    ensures forall x :: Contains(r, Some(x)) <==> Contains(d, Some(x))
  {
    Union(d, OnlyNull())
  }

  /** Widening twice is widening once, and a domain that already accepts NULL is left as it is. */
  lemma WithNullIdempotent(d: Domain)
    ensures WithNull(WithNull(d)) == WithNull(d)
    ensures Contains(d, None) ==> WithNull(d) == d
  {
    ExtensionalEquality(WithNull(WithNull(d)), WithNull(d));
    if Contains(d, None) {
      ExtensionalEquality(WithNull(d), d);
    }
  }

  /** A column handle is an opaque connector identifier compared by value; here, its name. */
  type ColumnHandle = string

  /** A constraint: the domain of each constrained column; an unconstrained column is absent. */
  type Constraint = map<ColumnHandle, Domain>

  /** A row, keyed by column handle. */
  type Row = map<ColumnHandle, Value>

  /** A row satisfies a constraint when every constrained column holds an accepted value. */
  ghost predicate Satisfies(row: Row, c: Constraint)
  {
    forall h :: h in c ==> h in row && Contains(c[h], row[h])
  }

  /** The unrestricted constraint. */
  function Unrestricted(): (c: Constraint)
    ensures forall row :: Satisfies(row, c)
  {
    map[]
  }

  /** Widens every domain of a constraint with NULL when `pad` holds; otherwise the constraint is unchanged. */
  function WidenWithNull(c: Constraint, pad: bool): (r: Constraint)
    ensures r.Keys == c.Keys
    ensures forall h :: h in c ==> r[h] == if pad then WithNull(c[h]) else c[h]
  {
    if pad then map h | h in c :: WithNull(c[h]) else c
  }

  /** No two keys of `m` share a value. */
  predicate Injective<K, V(==)>(m: map<K, V>)
  {
    forall k1, k2 :: k1 in m && k2 in m && m[k1] == m[k2] ==> k1 == k2
  }

  /**
   * Re-keys a map through a mapping of old column handles to new ones; entries whose
   * handle the mapping does not know are dropped.
   */
  function Rename<V>(m: map<ColumnHandle, V>, mapping: map<ColumnHandle, ColumnHandle>): (r: map<ColumnHandle, V>)
    requires Injective(mapping)
    ensures forall h :: h in m && h in mapping ==> mapping[h] in r && r[mapping[h]] == m[h]
    ensures forall n :: n in r ==> exists h :: h in m && h in mapping && mapping[h] == n
    ensures r.Keys <= mapping.Values
  {
    map h | h in m && h in mapping :: mapping[h] := m[h]
  }

  /** A row that is NULL in every given column. */
  function NullRow(handles: set<ColumnHandle>): (r: Row)
    ensures r.Keys == handles
    ensures forall h :: h in r ==> r[h] == None
  {
    map h | h in handles :: None
  }
}
