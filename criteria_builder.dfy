/**
 * A stand-in for the JPA Criteria API: the entity's metamodel (what
 * `Root.get` and `Root.join` can reach and `Path.getJavaType` reports), the
 * predicates a `CriteriaBuilder` builds, and what it means for a stored
 * entity to satisfy one.
 */
module CriteriaBuilder {
  import opened JavaLang

  /** The managed entity type: attribute name to declared Java class, relation name to the joined type's attributes. */
  datatype Root = Root(attributes: map<string, JavaType>, relations: map<string, map<string, JavaType>>)

  function UnknownAttribute(name: string): Error {
    IllegalArgument("Unable to locate Attribute with the given name [" + name + "] on this ManagedType")
  }

  /** `root.get(name).getJavaType()`: fails for a name the entity does not map. */
  function AttributeType(root: Root, name: string): (r: Result<JavaType>)
    ensures r.Ok? <==> name in root.attributes
    ensures r.Ok? ==> r.value == root.attributes[name]
    ensures r.Err? ==> r.error == UnknownAttribute(name)
  {
    if name in root.attributes then Ok(root.attributes[name]) else Err(UnknownAttribute(name))
  }

  /** Path expressions: `root.get(name)`, `root.join(relation).get(name)` and `path.as(type)`. */
  datatype Expr =
    | Attribute(name: string)
    | JoinedAttribute(relation: string, name: string)
    | As(path: Expr, target: JavaType)

  /** The predicates the handlers ask the `CriteriaBuilder` for. */
  datatype Pred =
    | Equal(x: Expr, v: Value)                     // cb.equal
    | NotEqual(x: Expr, v: Value)                  // cb.notEqual
    | GreaterThan(x: Expr, v: Value)               // cb.gt, cb.greaterThan
    | LessThan(x: Expr, v: Value)                  // cb.lt, cb.lessThan
    | GreaterThanOrEqualTo(x: Expr, v: Value)      // cb.greaterThanOrEqualTo
    | LessThanOrEqualTo(x: Expr, v: Value)         // cb.lessThanOrEqualTo
    | In(x: Expr, values: seq<Value>)              // cb.in(path).value(..)...
    | Between(x: Expr, lo: Value, hi: Value)       // cb.between
    | And(left: Pred, right: Pred)                 // cb.and
    | Or(left: Pred, right: Pred)                  // cb.or

  /**
   * One stored entity: its id, its attribute values (an absent attribute is
   * SQL NULL) and, per relation, the attribute values of the joined entities.
   */
  datatype Row = Row(id: int, values: map<string, Value>, joined: map<string, seq<map<string, Value>>>)

  /** What the database compares: numbers by value, temporal values by their position on the time line. */
  datatype Key = NumKey(r: real) | TimeKey(t: int) | BoolKey(b: bool) | TextKey(s: string)

  function KeyOf(v: Value): Key {
    match v
    case IntValue(i) => NumKey(i as real)
    case LongValue(l) => NumKey(l as real)
    case DoubleValue(d) => NumKey(d)
    case FloatValue(f) => NumKey(f)
    case DecimalValue(x) => NumKey(x)
    case BoolValue(b) => BoolKey(b)
    case StrValue(s) => TextKey(s)
    case TimestampValue(n) => TimeKey(n)
    case SqlDateValue(ms) => TimeKey(ms * NANOS_PER_MILLI)
    case DateValue(ms) => TimeKey(ms * NANOS_PER_MILLI)
    case LocalDateTimeValue(n) => TimeKey(n)
    case InstantValue(n) => TimeKey(n)
  }

  /** Strict order; keys of different kinds, booleans and strings are unordered here. */
  predicate Below(a: Key, b: Key) {
    || (a.NumKey? && b.NumKey? && a.r < b.r)
    || (a.TimeKey? && b.TimeKey? && a.t < b.t)
  }

  predicate AtMost(a: Key, b: Key) {
    Below(a, b) || a == b
  }

  /** The values a path denotes in a row: one, none (NULL), or one per joined entity. */
  function PathValues(x: Expr, row: Row): set<Value> {
    match x
    case Attribute(name) => if name in row.values then {row.values[name]} else {}
    case JoinedAttribute(relation, name) =>
      if relation in row.joined then
        set c | c in row.joined[relation] && name in c :: c[name]
      else {}
    case As(path, _) => PathValues(path, row)
  }

  /**
   * A row satisfies an atomic predicate when some value of its path passes
   * the comparison (for a join, some joined entity does), as SQL evaluates
   * the WHERE clause of a join.
   */
  predicate Holds(p: Pred, row: Row) {
    match p
    case Equal(x, v) => exists a :: a in PathValues(x, row) && KeyOf(a) == KeyOf(v)
    case NotEqual(x, v) => exists a :: a in PathValues(x, row) && KeyOf(a) != KeyOf(v)
    case GreaterThan(x, v) => exists a :: a in PathValues(x, row) && Below(KeyOf(v), KeyOf(a))
    case LessThan(x, v) => exists a :: a in PathValues(x, row) && Below(KeyOf(a), KeyOf(v))
    case GreaterThanOrEqualTo(x, v) => exists a :: a in PathValues(x, row) && AtMost(KeyOf(v), KeyOf(a))
    case LessThanOrEqualTo(x, v) => exists a :: a in PathValues(x, row) && AtMost(KeyOf(a), KeyOf(v))
    case In(x, vs) =>
      exists a :: a in PathValues(x, row) && exists j :: 0 <= j < |vs| && KeyOf(a) == KeyOf(vs[j])
    case Between(x, lo, hi) =>
      exists a :: a in PathValues(x, row) && AtMost(KeyOf(lo), KeyOf(a)) && AtMost(KeyOf(a), KeyOf(hi))
    case And(l, r) => Holds(l, row) && Holds(r, row)
    case Or(l, r) => Holds(l, row) || Holds(r, row)
  }

  /** A null predicate (no WHERE restriction) holds of every row. */
  predicate HoldsOpt(p: Option<Pred>, row: Row) {
    p.None? || Holds(p.value, row)
  }

  /** The six comparisons of a field with a value, as a reader of the filter means them. */
  datatype Comparison = EQ | NE | GT | LT | GE | LE

  /** `field c v`, for a field value with key `a` and a filter value with key `v`. */
  predicate Satisfies(c: Comparison, a: Key, v: Key) {
    match c
    case EQ => a == v
    case NE => a != v
    case GT => Below(v, a)
    case LT => Below(a, v)
    case GE => Below(v, a) || v == a
    case LE => Below(a, v) || a == v
  }

  /** A row's attribute is non-null and compares with `v` as `c` says. */
  predicate AttributeSatisfies(row: Row, name: string, c: Comparison, v: Value) {
    name in row.values && Satisfies(c, KeyOf(row.values[name]), KeyOf(v))
  }

  /** `cb.or(cb.gt(x, v), cb.equal(x, v))` selects exactly the rows `cb.greaterThanOrEqualTo(x, v)` does. */
  lemma {:induction false} GreaterOrEqualIsOrOfBoth(x: Expr, v: Value, row: Row)
    ensures Holds(Or(GreaterThan(x, v), Equal(x, v)), row) <==> Holds(GreaterThanOrEqualTo(x, v), row)
  {
    if Holds(GreaterThanOrEqualTo(x, v), row) {
      var a :| a in PathValues(x, row) && AtMost(KeyOf(v), KeyOf(a));
      if !Below(KeyOf(v), KeyOf(a)) {
        assert a in PathValues(x, row) && KeyOf(a) == KeyOf(v);
      }
    }
  }

  /** `cb.or(cb.lt(x, v), cb.equal(x, v))` selects exactly the rows `cb.lessThanOrEqualTo(x, v)` does. */
  lemma {:induction false} LessOrEqualIsOrOfBoth(x: Expr, v: Value, row: Row)
    ensures Holds(Or(LessThan(x, v), Equal(x, v)), row) <==> Holds(LessThanOrEqualTo(x, v), row)
  {
    if Holds(LessThanOrEqualTo(x, v), row) {
      var a :| a in PathValues(x, row) && AtMost(KeyOf(a), KeyOf(v));
      if !Below(KeyOf(a), KeyOf(v)) {
        assert a in PathValues(x, row) && KeyOf(a) == KeyOf(v);
      }
    }
  }

  /** The predicate a comparison stands for. */
  function ComparisonPredicate(c: Comparison, x: Expr, v: Value): Pred {
    match c
    case EQ => Equal(x, v)
    case NE => NotEqual(x, v)
    case GT => GreaterThan(x, v)
    case LT => LessThan(x, v)
    case GE => GreaterThanOrEqualTo(x, v)
    case LE => LessThanOrEqualTo(x, v)
  }

  /** On a plain (possibly re-typed) attribute, each comparison predicate means what its name says. */
  lemma ComparisonPredicateMeaning(c: Comparison, name: string, target: Option<JavaType>, v: Value, row: Row)
    ensures var x := if target.Some? then As(Attribute(name), target.value) else Attribute(name);
            Holds(ComparisonPredicate(c, x, v), row) <==> AttributeSatisfies(row, name, c, v)
  {
    var x := if target.Some? then As(Attribute(name), target.value) else Attribute(name);
    assert PathValues(x, row) == if name in row.values then {row.values[name]} else {};
    if name in row.values {
      assert row.values[name] in PathValues(x, row);
    }
  }
}
