/**
 * The six temporal comparison builders of the date-time filter handler.
 * Unlike the text conversion, the field's class is tested here against the
 * four temporal classes from below (is the field a Timestamp, a
 * LocalDateTime, a java.sql.Date, a java.util.Date?), the first that passes
 * choosing both the re-typed path and the class the instant is converted to.
 */
module DateTimeOperations {
  import opened JavaLang
  import opened CriteriaBuilder
  import opened AbstractFilterHandler

  /** The temporal class the field is compared as, or None for a field of any other class. */
  function TemporalTarget(t: JavaType): (k: Option<JavaType>)
    ensures k.Some? ==> k.value in INSTANT_TARGETS && IsAssignableFrom(k.value, t)
  {
    if IsAssignableFrom(Timestamp, t) then Some(Timestamp)
    else if IsAssignableFrom(LocalDateTime, t) then Some(LocalDateTime)
    else if IsAssignableFrom(SqlDate, t) then Some(SqlDate)
    else if IsAssignableFrom(UtilDate, t) then Some(UtilDate)
    else None
  }

  function UnsupportedTemporal(field: string, t: JavaType): Error {
    IllegalArgument("Temporal comparison only supported on Timestamp/LocalDateTime/Date. Field '"
      + field + "' has type " + TypeName(t))
  }

  /**
   * The predicate the builder for comparison `c` produces for `field` and
   * `instant`: the path re-typed as the field's temporal class, compared
   * with the instant converted to that class.
   */
  function DateTimePredicate(c: Comparison, field: string, instant: Instant, root: Root): (r: Result<Pred>)
    ensures field !in root.attributes ==> r == Err(UnknownAttribute(field))
    ensures field in root.attributes && TemporalTarget(root.attributes[field]).None? ==>
      r == Err(UnsupportedTemporal(field, root.attributes[field]))
    ensures r.Err? ==> r.error.IllegalArgument?
  {
    var fieldType :- AttributeType(root, field);
    match TemporalTarget(fieldType)
    case None => Err(UnsupportedTemporal(field, fieldType))
    case Some(target) =>
      var v :- CastInstant(target, instant);
      Ok(ComparisonPredicate(c, As(Attribute(field), target), v))
  }

  /**
   * The value a temporal filter compares with, by the field's class: the
   * instant as a Timestamp, as a LocalDateTime at UTC, as a java.sql.Date of
   * its epoch milliseconds, and, for a java.util.Date field, as a Timestamp
   * again (the instant conversion's first branch accepts every supertype of
   * Timestamp).
   */
  function TemporalOperand(target: JavaType, instant: Instant): Value {
    match target
    case Timestamp => TimestampValue(instant)
    case LocalDateTime => LocalDateTimeValue(instant)
    case SqlDate => SqlDateValue(ToEpochMilli(instant))
    case _ => TimestampValue(instant)
  }

  /**
   * The subtype tests taken in order: each temporal class is compared as
   * itself, a java.sql.Time as the java.util.Date it extends, and every
   * other class is refused.
   */
  lemma TemporalTargetOrder(t: JavaType)
    ensures t == Timestamp <==> TemporalTarget(t) == Some(Timestamp)
    ensures t == LocalDateTime <==> TemporalTarget(t) == Some(LocalDateTime)
    ensures t == SqlDate <==> TemporalTarget(t) == Some(SqlDate)
    ensures t == UtilDate || t == SqlTime <==> TemporalTarget(t) == Some(UtilDate)
    ensures t !in INSTANT_TARGETS && t != SqlTime <==> TemporalTarget(t).None?
  {
  }

  /**
   * A java.sql.Time field passes the java.util.Date test and is compared as
   * a Date with the instant as a Timestamp, although the instant conversion
   * applied to the Time class itself would refuse it.
   */
  lemma TimeFieldComparedAsDate(c: Comparison, field: string, instant: Instant, root: Root)
    requires field in root.attributes && root.attributes[field] == SqlTime
    ensures DateTimePredicate(c, field, instant, root) ==
      Ok(ComparisonPredicate(c, As(Attribute(field), UtilDate), TimestampValue(instant)))
    ensures CastInstant(SqlTime, instant) == Err(UnsupportedFieldType(SqlTime))
  {
    assert TemporalTarget(SqlTime) == Some(UtilDate);
  }

  /**
   * Every operator builds the same re-typed path and the same operand; only
   * the comparison differs. The builder succeeds exactly when the field
   * exists and has a temporal class, and the converted operand is always of
   * the target class, so the downcast of it succeeds.
   */
  lemma DateTimePredicateShape(c: Comparison, field: string, instant: Instant, root: Root)
    ensures DateTimePredicate(c, field, instant, root).Ok? <==>
      field in root.attributes && TemporalTarget(root.attributes[field]).Some?
    ensures DateTimePredicate(c, field, instant, root).Ok? ==>
      var target := TemporalTarget(root.attributes[field]).value;
      var v := TemporalOperand(target, instant);
      && IsAssignableFrom(target, ClassOf(v))
      && DateTimePredicate(c, field, instant, root).value == ComparisonPredicate(c, As(Attribute(field), target), v)
  {
  }

  /** NOT_EQUAL converts exactly like EQUAL, and so does every other pair of operators. */
  lemma SameOperandForEveryOperator(c1: Comparison, c2: Comparison, field: string, instant: Instant, root: Root)
    ensures DateTimePredicate(c1, field, instant, root).Ok? <==> DateTimePredicate(c2, field, instant, root).Ok?
    ensures DateTimePredicate(c1, field, instant, root).Err? ==>
      DateTimePredicate(c1, field, instant, root) == DateTimePredicate(c2, field, instant, root)
    ensures DateTimePredicate(c1, field, instant, root).Ok? ==>
      DateTimePredicate(c1, field, instant, root).value.x == DateTimePredicate(c2, field, instant, root).value.x
      && DateTimePredicate(c1, field, instant, root).value.v == DateTimePredicate(c2, field, instant, root).value.v
  {
    DateTimePredicateShape(c1, field, instant, root);
    DateTimePredicateShape(c2, field, instant, root);
  }

  /** What a temporal predicate selects: a row whose field is non-null and compares with the operand as the operator says. */
  lemma DateTimePredicateMeaning(c: Comparison, field: string, instant: Instant, root: Root, row: Row)
    requires DateTimePredicate(c, field, instant, root).Ok?
    ensures Holds(DateTimePredicate(c, field, instant, root).value, row) <==>
      AttributeSatisfies(row, field, c, TemporalOperand(TemporalTarget(root.attributes[field]).value, instant))
  {
    var target := TemporalTarget(root.attributes[field]).value;
    DateTimePredicateShape(c, field, instant, root);
    ComparisonPredicateMeaning(c, field, Some(target), TemporalOperand(target, instant), row);
  }

  /**
   * On a Timestamp field holding exactly the filter's instant, the strict
   * operators exclude the row and the or-equal operators include it.
   */
  lemma {:induction false} BoundaryInstant(field: string, instant: Instant, root: Root, row: Row)
    requires field in root.attributes && root.attributes[field] == Timestamp
    requires field in row.values && row.values[field] == TimestampValue(instant)
    ensures !Holds(DateTimePredicate(GT, field, instant, root).value, row)
    ensures !Holds(DateTimePredicate(LT, field, instant, root).value, row)
    ensures Holds(DateTimePredicate(GE, field, instant, root).value, row)
    ensures Holds(DateTimePredicate(LE, field, instant, root).value, row)
    ensures Holds(DateTimePredicate(EQ, field, instant, root).value, row)
    ensures !Holds(DateTimePredicate(NE, field, instant, root).value, row)
  {
    TemporalTargetOrder(Timestamp);
    DateTimePredicateMeaning(GT, field, instant, root, row);
    DateTimePredicateMeaning(LT, field, instant, root, row);
    DateTimePredicateMeaning(GE, field, instant, root, row);
    DateTimePredicateMeaning(LE, field, instant, root, row);
    DateTimePredicateMeaning(EQ, field, instant, root, row);
    DateTimePredicateMeaning(NE, field, instant, root, row);
  }

  /** An Object-typed field is not temporal here, although the instant conversion would accept it. */
  lemma ObjectFieldRefused(c: Comparison, field: string, instant: Instant, root: Root)
    requires field in root.attributes && root.attributes[field] == Object
    ensures DateTimePredicate(c, field, instant, root) == Err(UnsupportedTemporal(field, Object))
    ensures CastInstant(Object, instant).Ok?
  {
    assert TemporalTarget(Object).None?;
  }
}
