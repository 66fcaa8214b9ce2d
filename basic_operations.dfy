/**
 * The six comparison builders of the basic filter handler. Each builder is
 * a deferred specification: nothing is looked up or converted until the
 * specification is turned into a predicate against the entity's metamodel,
 * so every failure here is a failure of that later step.
 */
module BasicOperations {
  import opened JavaLang
  import opened CriteriaBuilder
  import opened AbstractFilterHandler

  /** The `(Number)` cast the ordering builders apply to the converted value. */
  function AsNumber(v: Value): (r: Result<Value>)
    ensures r.Ok? <==> IsNumber(v)
    ensures r.Ok? ==> r.value == v
    ensures r.Err? ==> r.error == ClassCast(TypeName(ClassOf(v)), "java.lang.Number")
  {
    if IsNumber(v) then Ok(v) else Err(ClassCast(TypeName(ClassOf(v)), "java.lang.Number"))
  }

  /** The comparisons whose builders cast the converted value to Number. */
  predicate IsOrdering(c: Comparison) {
    c.GT? || c.LT? || c.GE? || c.LE?
  }

  /**
   * The predicate the builder for comparison `c` produces for `field` and
   * the wire text `value`. The field is looked up, its declared class read,
   * the text converted to that class, and (for the orderings) the result
   * cast to Number. GE and LE are built as `or(gt, equal)` and
   * `or(lt, equal)`; each disjunct converts the text afresh, but the
   * conversion is a function of the class and the text, so the second
   * conversion cannot fail once the first has succeeded and gives the same
   * value, which is used here for both.
   */
  function BasicPredicate(lib: Parsers, c: Comparison, field: string, value: string, root: Root): (r: Result<Pred>)
    ensures field !in root.attributes ==> r == Err(UnknownAttribute(field))
    ensures r.Err? ==> IsIllegalArgument(r.error) || r.error.DateTimeParse? || r.error.ClassCast?
  {
    var v :- Operand(lib, field, value, root);
    var x := Attribute(field);
    match c
    case EQ => Ok(Equal(x, v))
    case NE => Ok(NotEqual(x, v))
    case GT =>
      var n :- AsNumber(v);
      Ok(GreaterThan(x, n))
    case LT =>
      var n :- AsNumber(v);
      Ok(LessThan(x, n))
    case GE =>
      var n :- AsNumber(v);
      Ok(Or(GreaterThan(x, n), Equal(x, v)))
    case LE =>
      var n :- AsNumber(v);
      Ok(Or(LessThan(x, n), Equal(x, v)))
  }

  /** The value a basic filter compares with: its text converted to the field's declared class. */
  function Operand(lib: Parsers, field: string, value: string, root: Root): Result<Value> {
    var fieldType :- AttributeType(root, field);
    CastString(lib, fieldType, value)
  }

  /**
   * A builder succeeds exactly when the field exists, its text converts,
   * and, for the orderings, the converted value is a Number; a failure is
   * the first of those steps to fail.
   */
  lemma BasicPredicateSucceeds(lib: Parsers, c: Comparison, field: string, value: string, root: Root)
    ensures BasicPredicate(lib, c, field, value, root).Ok? <==>
      Operand(lib, field, value, root).Ok? && (IsOrdering(c) ==> IsNumber(Operand(lib, field, value, root).value))
    ensures Operand(lib, field, value, root).Err? ==>
      BasicPredicate(lib, c, field, value, root) == Err(Operand(lib, field, value, root).error)
    ensures Operand(lib, field, value, root).Ok? && IsOrdering(c) && !IsNumber(Operand(lib, field, value, root).value) ==>
      BasicPredicate(lib, c, field, value, root) ==
        Err(ClassCast(TypeName(ClassOf(Operand(lib, field, value, root).value)), "java.lang.Number"))
  {
  }

  /**
   * Every comparison is against the converted value, never the raw text;
   * GE and LE use that same value in both disjuncts.
   */
  lemma BasicPredicateShape(lib: Parsers, c: Comparison, field: string, value: string, root: Root)
    requires BasicPredicate(lib, c, field, value, root).Ok?
    ensures var p := BasicPredicate(lib, c, field, value, root).value;
            var v := Operand(lib, field, value, root).value;
            && (c.GE? ==> p == Or(GreaterThan(Attribute(field), v), Equal(Attribute(field), v)))
            && (c.LE? ==> p == Or(LessThan(Attribute(field), v), Equal(Attribute(field), v)))
            && (!c.GE? && !c.LE? ==> p == ComparisonPredicate(c, Attribute(field), v))
  {
  }

  /**
   * What a basic predicate selects: a row whose field is non-null and
   * compares with the converted value as the operator says. In particular
   * GE holds exactly when the field is at least the value and LE exactly
   * when it is at most the value.
   */
  lemma {:induction false} BasicPredicateMeaning(lib: Parsers, c: Comparison, field: string, value: string, root: Root, row: Row)
    requires BasicPredicate(lib, c, field, value, root).Ok?
    ensures Holds(BasicPredicate(lib, c, field, value, root).value, row) <==>
      AttributeSatisfies(row, field, c, Operand(lib, field, value, root).value)
  {
    var v := Operand(lib, field, value, root).value;
    var x := Attribute(field);
    BasicPredicateShape(lib, c, field, value, root);
    match c
    case GE =>
      GreaterOrEqualIsOrOfBoth(x, v, row);
      ComparisonPredicateMeaning(GE, field, None, v, row);
    case LE =>
      LessOrEqualIsOrOfBoth(x, v, row);
      ComparisonPredicateMeaning(LE, field, None, v, row);
    case _ =>
      ComparisonPredicateMeaning(c, field, None, v, row);
  }

  /** A row whose field equals the filter value satisfies both inclusive orderings, GE and LE. */
  lemma BoundaryIncluded(lib: Parsers, field: string, value: string, root: Root, row: Row)
    requires Operand(lib, field, value, root).Ok?
    requires IsNumber(Operand(lib, field, value, root).value)
    requires field in row.values && KeyOf(row.values[field]) == KeyOf(Operand(lib, field, value, root).value)
    ensures BasicPredicate(lib, GE, field, value, root).Ok? && Holds(BasicPredicate(lib, GE, field, value, root).value, row)
    ensures BasicPredicate(lib, LE, field, value, root).Ok? && Holds(BasicPredicate(lib, LE, field, value, root).value, row)
  {
    BasicPredicateSucceeds(lib, GE, field, value, root);
    BasicPredicateSucceeds(lib, LE, field, value, root);
    BasicPredicateMeaning(lib, GE, field, value, root, row);
    BasicPredicateMeaning(lib, LE, field, value, root, row);
  }

  /** A row whose field equals the value is outside both strict orderings. */
  lemma BoundaryExcluded(lib: Parsers, field: string, value: string, root: Root, row: Row)
    requires Operand(lib, field, value, root).Ok?
    requires IsNumber(Operand(lib, field, value, root).value)
    requires field in row.values && KeyOf(row.values[field]) == KeyOf(Operand(lib, field, value, root).value)
    ensures BasicPredicate(lib, GT, field, value, root).Ok? && !Holds(BasicPredicate(lib, GT, field, value, root).value, row)
    ensures BasicPredicate(lib, LT, field, value, root).Ok? && !Holds(BasicPredicate(lib, LT, field, value, root).value, row)
  {
    BasicPredicateSucceeds(lib, GT, field, value, root);
    BasicPredicateSucceeds(lib, LT, field, value, root);
    BasicPredicateMeaning(lib, GT, field, value, root, row);
    BasicPredicateMeaning(lib, LT, field, value, root, row);
  }

  /** The decimal text of an int on an Integer field is compared as that Integer, not as text. */
  lemma EqualConvertsText(lib: Parsers, field: string, n: int, root: Root)
    requires field in root.attributes && root.attributes[field] == Integer
    requires Decimal.INT_MIN <= n <= Decimal.INT_MAX
    ensures BasicPredicate(lib, EQ, field, Decimal.ToDecimalString(n), root) == Ok(Equal(Attribute(field), IntValue(n)))
    ensures BasicPredicate(lib, NE, field, Decimal.ToDecimalString(n), root) == Ok(NotEqual(Attribute(field), IntValue(n)))
  {
    IntegerTargetRoundTrip(lib, n);
  }

  /** An ordering on an operand that is not a Number fails with the cast's exception. */
  lemma OrderingOnOperandFails(lib: Parsers, c: Comparison, field: string, value: string, root: Root, v: Value)
    requires IsOrdering(c) && Operand(lib, field, value, root) == Ok(v) && !IsNumber(v)
    ensures BasicPredicate(lib, c, field, value, root) == Err(ClassCast(TypeName(ClassOf(v)), "java.lang.Number"))
  {
  }

  /**
   * The orderings fail on a field whose converted value is not a Number:
   * Boolean and String fields, whatever the text.
   */
  lemma OrderingOnNonNumericFails(lib: Parsers, c: Comparison, field: string, value: string, root: Root)
    requires IsOrdering(c)
    requires field in root.attributes && root.attributes[field] in {Boolean, String}
    ensures BasicPredicate(lib, c, field, value, root).Err?
    ensures BasicPredicate(lib, c, field, value, root).error ==
      ClassCast(TypeName(root.attributes[field]), "java.lang.Number")
  {
    if root.attributes[field] == Boolean {
      BooleanNeverFails(lib, value);
      OrderingOnOperandFails(lib, c, field, value, root, BoolValue(EqualsIgnoreCase("true", value)));
    } else {
      StringIsIdentity(lib, value);
      OrderingOnOperandFails(lib, c, field, value, root, StrValue(value));
    }
  }
}
