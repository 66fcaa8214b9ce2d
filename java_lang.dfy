/**
 * The slice of the Java platform the filter compiler works with: the field
 * classes it inspects with `isAssignableFrom`, the boxed values it produces,
 * and the exceptions it throws.
 */
module JavaLang {

  datatype Option<+T> = None | Some(value: T)

  /** The exceptions the compiler throws or lets escape, one constructor per Java class. */
  datatype Error =
    | IllegalArgument(message: string)        // java.lang.IllegalArgumentException
    | NumberFormat(input: string)             // java.lang.NumberFormatException, a subclass of the above
    | DateTimeParse(input: string)            // java.time.format.DateTimeParseException
    | ClassCast(from: string, to: string)     // java.lang.ClassCastException
    | UnsupportedOperation(message: string)   // java.lang.UnsupportedOperationException
    | NullPointer                             // java.lang.NullPointerException
    | Runtime(message: string)                // a bare java.lang.RuntimeException
    | EntityNotFound(message: string)         // jakarta.persistence.EntityNotFoundException

  /** `e instanceof IllegalArgumentException`. */
  predicate IsIllegalArgument(e: Error) {
    e.IllegalArgument? || e.NumberFormat?
  }

  /** A value, or the exception that was thrown instead of returning one. */
  datatype Result<+T> = Ok(value: T) | Err(error: Error) {
    predicate IsFailure() { Err? }
    function PropagateFailure<U>(): Result<U>
      requires Err?
    {
      Err(error)
    }
    function Extract(): T
      requires Ok?
    {
      value
    }
  }

  /**
   * A stream of results gathered into a list, as a Java stream pipeline
   * evaluates it: every value in order, or the first exception in list
   * order, after which nothing further is evaluated.
   */
  function Collect<T>(rs: seq<Result<T>>): (r: Result<seq<T>>)
    ensures r.Ok? <==> forall i :: 0 <= i < |rs| ==> rs[i].Ok?
    ensures r.Ok? ==> |r.value| == |rs|
    ensures r.Ok? ==> forall i :: 0 <= i < |rs| ==> rs[i] == Ok(r.value[i])
    ensures r.Err? ==>
      exists i :: 0 <= i < |rs| && rs[i] == Err(r.error) && (forall j :: 0 <= j < i ==> rs[j].Ok?)
  {
    if rs == [] then Ok([])
    else
      var init := rs[..|rs| - 1];
      assert forall i :: 0 <= i < |init| ==> init[i] == rs[i];
      var prefix := Collect(init);
      if prefix.Err? then Err(prefix.error)
      else if rs[|rs| - 1].Err? then Err(rs[|rs| - 1].error)
      else Ok(prefix.value + [rs[|rs| - 1].value])
  }

  /** One more element extends the gathered prefix, fails with that element's exception, or keeps the prefix's. */
  lemma CollectStep<T>(rs: seq<Result<T>>, i: nat)
    requires i < |rs|
    ensures Collect(rs[..i + 1]) ==
      if Collect(rs[..i]).Err? then Collect(rs[..i])
      else if rs[i].Err? then Err(rs[i].error)
      else Ok(Collect(rs[..i]).value + [rs[i].value])
  {
    var w := rs[..i + 1];
    assert w[..|w| - 1] == rs[..i];
    assert w[|w| - 1] == rs[i];
  }

  /** Once a prefix fails, the whole stream fails with the same exception. */
  lemma {:induction false} CollectKeepsError<T>(rs: seq<Result<T>>, k: nat)
    requires k <= |rs|
    requires Collect(rs[..k]).Err?
    ensures Collect(rs) == Collect(rs[..k])
    decreases |rs|
  {
    if k == |rs| {
      assert rs[..k] == rs;
    } else {
      var init := rs[..|rs| - 1];
      assert init[..k] == rs[..k];
      CollectKeepsError(init, k);
    }
  }

  /**
   * The Java classes an entity attribute can be declared with, closed to
   * the ones the compiler tests for; `Other` stands for any class unrelated
   * to all of them (a `java.util.UUID`, an enum, ...).
   */
  datatype JavaType =
    | Object
    | Number | Double | Integer | Long | Float | BigDecimal
    | UtilDate | Timestamp | SqlDate | SqlTime
    | Boolean | String | LocalDateTime
    | Other(name: string)

  predicate IsNumberClass(t: JavaType) {
    t.Double? || t.Integer? || t.Long? || t.Float? || t.BigDecimal?
  }

  /**
   * `sup.isAssignableFrom(sub)`: `sub` is `sup` or one of its subclasses.
   * The hierarchy is Object > Number > {Double, Integer, Long, Float,
   * BigDecimal}, Object > java.util.Date > {Timestamp, java.sql.Date,
   * java.sql.Time}, and
   * Object > every other class.
   */
  predicate IsAssignableFrom(sup: JavaType, sub: JavaType) {
    || sup == sub
    || sup == Object
    || (sup == Number && IsNumberClass(sub))
    || (sup == UtilDate && (sub == Timestamp || sub == SqlDate || sub == SqlTime))
  }

  /** `Class.getName()`. */
  function TypeName(t: JavaType): string {
    match t
    case Object => "java.lang.Object"
    case Number => "java.lang.Number"
    case Double => "java.lang.Double"
    case Integer => "java.lang.Integer"
    case Long => "java.lang.Long"
    case Float => "java.lang.Float"
    case BigDecimal => "java.math.BigDecimal"
    case UtilDate => "java.util.Date"
    case Timestamp => "java.sql.Timestamp"
    case SqlDate => "java.sql.Date"
    case SqlTime => "java.sql.Time"
    case Boolean => "java.lang.Boolean"
    case String => "java.lang.String"
    case LocalDateTime => "java.time.LocalDateTime"
    case Other(name) => name
  }

  /** A `java.time.Instant`, as nanoseconds since 1970-01-01T00:00:00Z. */
  type Instant = int

  const NANOS_PER_MILLI: int := 1_000_000

  /**
   * `Instant.toEpochMilli()`: the instant truncated towards the past to
   * whole milliseconds (Dafny's `/` by a positive divisor is floor division).
   */
  function ToEpochMilli(i: Instant): int {
    i / NANOS_PER_MILLI
  }

  /**
   * The boxed values a conversion returns. Floating-point and decimal
   * numbers are represented by the number they denote; every temporal value
   * by its position on the UTC time line.
   */
  datatype Value =
    | IntValue(i: int)                     // java.lang.Integer
    | LongValue(l: int)                    // java.lang.Long
    | DoubleValue(d: real)                 // java.lang.Double
    | FloatValue(f: real)                  // java.lang.Float
    | DecimalValue(x: real)                // java.math.BigDecimal
    | BoolValue(b: bool)                   // java.lang.Boolean
    | StrValue(s: string)                  // java.lang.String
    | TimestampValue(nanos: Instant)       // java.sql.Timestamp, nanosecond precision
    | SqlDateValue(millis: int)            // java.sql.Date, epoch milliseconds
    | DateValue(millis: int)               // java.util.Date, epoch milliseconds
    | LocalDateTimeValue(utcNanos: Instant) // java.time.LocalDateTime, read at UTC
    | InstantValue(instant: Instant)       // java.time.Instant

  /** `v.getClass()`; an Instant is outside the closed set of field classes. */
  function ClassOf(v: Value): JavaType {
    match v
    case IntValue(_) => Integer
    case LongValue(_) => Long
    case DoubleValue(_) => Double
    case FloatValue(_) => Float
    case DecimalValue(_) => BigDecimal
    case BoolValue(_) => Boolean
    case StrValue(_) => String
    case TimestampValue(_) => Timestamp
    case SqlDateValue(_) => SqlDate
    case DateValue(_) => UtilDate
    case LocalDateTimeValue(_) => LocalDateTime
    case InstantValue(_) => Other("java.time.Instant")
  }

  /** `v instanceof Number`, the test a `(Number)` cast makes. */
  predicate IsNumber(v: Value) {
    IsAssignableFrom(Number, ClassOf(v))
  }
}
