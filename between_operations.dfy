/**
 * The BETWEEN builder: the field, untouched, between the filter's two
 * instants, both bounds included and neither converted to the field's class.
 */
module BetweenOperations {
  import opened JavaLang
  import opened CriteriaBuilder

  /** `cb.between(root.get(field), start, end)`. */
  function BetweenPredicate(field: string, start: Instant, end: Instant, root: Root): (r: Result<Pred>)
    ensures r.Ok? <==> field in root.attributes
    ensures r.Err? ==> r.error == UnknownAttribute(field)
  {
    var _ :- AttributeType(root, field);
    Ok(Between(Attribute(field), InstantValue(start), InstantValue(end)))
  }

  /** The bounds are the raw instants on the untyped path. */
  lemma BetweenUsesRawInstants(field: string, start: Instant, end: Instant, root: Root)
    requires field in root.attributes
    ensures BetweenPredicate(field, start, end, root) == Ok(Between(Attribute(field), InstantValue(start), InstantValue(end)))
  {
  }

  /**
   * What a BETWEEN predicate selects: a row whose field holds a temporal
   * value at or after `start` and at or before `end`, both bounds included.
   */
  lemma BetweenMeaning(field: string, start: Instant, end: Instant, root: Root, row: Row)
    requires field in root.attributes
    ensures Holds(BetweenPredicate(field, start, end, root).value, row) <==>
      field in row.values && KeyOf(row.values[field]).TimeKey?
      && start <= KeyOf(row.values[field]).t <= end
  {
    if field in row.values {
      var a := row.values[field];
      assert PathValues(Attribute(field), row) == {a};
    }
  }

  /** A range whose start lies after its end is accepted, and selects nothing. */
  lemma InvertedRangeMatchesNothing(field: string, start: Instant, end: Instant, root: Root, row: Row)
    requires field in root.attributes && start > end
    ensures BetweenPredicate(field, start, end, root).Ok?
    ensures !Holds(BetweenPredicate(field, start, end, root).value, row)
  {
    BetweenMeaning(field, start, end, root, row);
  }

  const NANOS_PER_SECOND: int := 1_000_000_000

  /**
   * August 2025, from 2025-08-01T00:00:00Z to 2025-08-31T23:59:59Z: a
   * timestamp at noon on the 15th is inside, one at 2025-09-01T00:00:00Z is
   * outside, and the first second of the month is inside.
   */
  lemma AugustRange(root: Root, row: Row)
    requires "createdAt" in root.attributes
    requires "createdAt" in row.values
    ensures var p := BetweenPredicate("createdAt", 1754006400 * NANOS_PER_SECOND, 1756684799 * NANOS_PER_SECOND, root).value;
      && (row.values["createdAt"] == TimestampValue(1755259200 * NANOS_PER_SECOND) ==> Holds(p, row))
      && (row.values["createdAt"] == TimestampValue(1754006400 * NANOS_PER_SECOND) ==> Holds(p, row))
      && (row.values["createdAt"] == TimestampValue(1756684800 * NANOS_PER_SECOND) ==> !Holds(p, row))
  {
    BetweenMeaning("createdAt", 1754006400 * NANOS_PER_SECOND, 1756684799 * NANOS_PER_SECOND, root, row);
  }
}
