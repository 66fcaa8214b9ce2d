/**
 * The conversions every filter handler shares: a wire value (JSON text or
 * an already-parsed instant) becomes a value of the entity attribute's
 * declared Java class, chosen by `isAssignableFrom` tests taken in a fixed
 * order, the first that passes deciding.
 */
module AbstractFilterHandler {
  import opened JavaLang
  import Decimal

  /**
   * The JDK parsers the conversion calls whose grammar is not modelled: each
   * maps a string to what it denotes, or to None where it throws.
   * `localDateTimeParse` is `LocalDateTime.parse(s, ISO_DATE_TIME)`, giving
   * the local date-time read at UTC.
   */
  datatype Parsers = Parsers(
    doubleValueOf: string -> Option<real>,
    floatValueOf: string -> Option<real>,
    newBigDecimal: string -> Option<real>,
    instantParse: string -> Option<Instant>,
    localDateTimeParse: string -> Option<Instant>)

  function UnsupportedFieldType(t: JavaType): Error {
    IllegalArgument("Unsupported field type: " + TypeName(t))
  }

  /** The classes the text conversion tries, in the order it tries them. */
  const TEXT_TARGETS: seq<JavaType> :=
    [Double, Integer, Long, Float, Boolean, BigDecimal, UtilDate, LocalDateTime, String]

  /** The classes the instant conversion tries, in the order it tries them. */
  const INSTANT_TARGETS: seq<JavaType> := [Timestamp, LocalDateTime, SqlDate, UtilDate]

  /** The position of the first class in `targets[i..]` that a field of type `t` can hold. */
  function FirstAssignableFrom(t: JavaType, targets: seq<JavaType>, i: nat): (k: Option<nat>)
    requires i <= |targets|
    ensures k.Some? ==> i <= k.value < |targets| && IsAssignableFrom(t, targets[k.value])
    ensures k.Some? ==> forall j :: i <= j < k.value ==> !IsAssignableFrom(t, targets[j])
    ensures k.None? ==> forall j :: i <= j < |targets| ==> !IsAssignableFrom(t, targets[j])
    decreases |targets| - i
  {
    if i == |targets| then None
    else if IsAssignableFrom(t, targets[i]) then Some(i)
    else FirstAssignableFrom(t, targets, i + 1)
  }

  /** The position of the first class in `targets` that a field of type `t` can hold. */
  function FirstAssignable(t: JavaType, targets: seq<JavaType>): Option<nat> {
    FirstAssignableFrom(t, targets, 0)
  }

  /** The first assignable position is the unique position that is assignable with nothing assignable before it. */
  lemma FirstAssignableUnique(t: JavaType, targets: seq<JavaType>, k: Option<nat>)
    requires k.Some? ==> k.value < |targets| && IsAssignableFrom(t, targets[k.value])
    requires k.Some? ==> forall j :: 0 <= j < k.value ==> !IsAssignableFrom(t, targets[j])
    requires k.None? ==> forall j :: 0 <= j < |targets| ==> !IsAssignableFrom(t, targets[j])
    ensures FirstAssignable(t, targets) == k
  {
  }

  /** ASCII case folding, as `equalsIgnoreCase` does it for the letters of "true". */
  function AsciiLower(c: char): char {
    if 'A' <= c <= 'Z' then (c as int + 32) as char else c
  }

  predicate EqualsIgnoreCase(a: string, b: string) {
    |a| == |b| && forall i :: 0 <= i < |a| ==> AsciiLower(a[i]) == AsciiLower(b[i])
  }

  /** `IllegalArgumentException(cause)` around the ArithmeticException of an overflowing `toEpochMilli`. */
  const LONG_OVERFLOW := IllegalArgument("java.lang.ArithmeticException: long overflow")

  /**
   * `Date.from(instant)`: the instant's epoch milliseconds, which must fit
   * a long; `toEpochMilli` overflows exactly when they do not.
   */
  function DateFrom(i: Instant): (r: Result<Value>)
    ensures r.Ok? <==> Decimal.LONG_MIN <= ToEpochMilli(i) <= Decimal.LONG_MAX
    ensures r.Ok? ==> r.value == DateValue(ToEpochMilli(i))
    ensures r.Err? ==> r.error == LONG_OVERFLOW
  {
    var millis := ToEpochMilli(i);
    if Decimal.LONG_MIN <= millis <= Decimal.LONG_MAX then Ok(DateValue(millis)) else Err(LONG_OVERFLOW)
  }

  /**
   * `castToRequiredType(Class<?>, String)`. A branch fires when the field's
   * type is the branch's class or one of its superclasses.
   */
  function CastString(lib: Parsers, fieldType: JavaType, value: string): (r: Result<Value>)
    ensures r.Ok? ==> IsAssignableFrom(fieldType, ClassOf(r.value))
    ensures r.Err? ==> IsIllegalArgument(r.error) || r.error == DateTimeParse(value)
  {
    if IsAssignableFrom(fieldType, Double) then
      match lib.doubleValueOf(value)
      case Some(d) => Ok(DoubleValue(d))
      case None => Err(NumberFormat(value))
    else if IsAssignableFrom(fieldType, Integer) then
      var n :- Decimal.ParseInt(value);
      Ok(IntValue(n))
    else if IsAssignableFrom(fieldType, Long) then
      var n :- Decimal.ParseLong(value);
      Ok(LongValue(n))
    else if IsAssignableFrom(fieldType, Float) then
      match lib.floatValueOf(value)
      case Some(f) => Ok(FloatValue(f))
      case None => Err(NumberFormat(value))
    else if IsAssignableFrom(fieldType, Boolean) then
      Ok(BoolValue(EqualsIgnoreCase("true", value)))
    else if IsAssignableFrom(fieldType, BigDecimal) then
      match lib.newBigDecimal(value)
      case Some(x) => Ok(DecimalValue(x))
      case None => Err(NumberFormat(value))
    else if IsAssignableFrom(fieldType, UtilDate) then
      match lib.instantParse(value)
      case Some(i) => DateFrom(i)
      case None => Err(DateTimeParse(value))
    else if IsAssignableFrom(fieldType, LocalDateTime) then
      match lib.localDateTimeParse(value)
      case Some(t) => Ok(LocalDateTimeValue(t))
      case None =>
        match lib.instantParse(value)
        case Some(i) => Ok(LocalDateTimeValue(i))
        case None => Err(DateTimeParse(value))
    else if IsAssignableFrom(fieldType, String) then
      Ok(StrValue(value))
    else
      Err(UnsupportedFieldType(fieldType))
  }

  /**
   * `castToRequiredType(Class<?>, Instant)`: a Timestamp for every supertype
   * of Timestamp, a LocalDateTime at UTC, or a java.sql.Date of the epoch
   * milliseconds.
   */
  function CastInstant(fieldType: JavaType, value: Instant): (r: Result<Value>)
    ensures r.Ok? ==> IsAssignableFrom(fieldType, ClassOf(r.value))
    ensures r.Ok? ==> r.value in {TimestampValue(value), LocalDateTimeValue(value), SqlDateValue(ToEpochMilli(value))}
    ensures r.Err? ==> r.error == UnsupportedFieldType(fieldType)
  {
    if IsAssignableFrom(fieldType, Timestamp) then
      Ok(TimestampValue(value))
    else if IsAssignableFrom(fieldType, LocalDateTime) then
      Ok(LocalDateTimeValue(value))
    else if IsAssignableFrom(fieldType, SqlDate) then
      Ok(SqlDateValue(ToEpochMilli(value)))
    else if IsAssignableFrom(fieldType, UtilDate) then
      Ok(DateValue(ToEpochMilli(value)))
    else
      Err(UnsupportedFieldType(fieldType))
  }

  /** The position in TEXT_TARGETS of the first class a field of type t can hold. */
  function TextBranch(t: JavaType): Option<nat> {
    match t
    case Object => Some(0)
    case Number => Some(0)
    case Double => Some(0)
    case Integer => Some(1)
    case Long => Some(2)
    case Float => Some(3)
    case Boolean => Some(4)
    case BigDecimal => Some(5)
    case UtilDate => Some(6)
    case LocalDateTime => Some(7)
    case String => Some(8)
    case _ => None
  }

  lemma TextBranchIsFirstAssignable(t: JavaType)
    ensures FirstAssignable(t, TEXT_TARGETS) == TextBranch(t)
  {
    FirstAssignableUnique(t, TEXT_TARGETS, TextBranch(t));
  }

  /** A field class without a text branch is refused as unsupported. */
  lemma NoBranchRefused(lib: Parsers, t: JavaType, value: string)
    ensures TextBranch(t).None? ==> CastString(lib, t, value) == Err(UnsupportedFieldType(t))
  {
  }

  /** A field class with a text branch is never refused as unsupported. */
  lemma BranchNeverRefused(lib: Parsers, t: JavaType, value: string)
    ensures TextBranch(t).Some? ==> CastString(lib, t, value) != Err(UnsupportedFieldType(t))
  {
  }

  /** A converted value has the class of its field's text branch. */
  lemma BranchGivesClass(lib: Parsers, t: JavaType, value: string)
    ensures TextBranch(t).Some? && CastString(lib, t, value).Ok? ==>
      ClassOf(CastString(lib, t, value).value) == TEXT_TARGETS[TextBranch(t).value]
  {
  }

  /**
   * Text conversion is first-match over Double, Integer, Long, Float,
   * Boolean, BigDecimal, java.util.Date, LocalDateTime, String: the result
   * has the class of the first one the field can hold, and a field that can
   * hold none of them is refused.
   */
  lemma CastStringFirstMatch(lib: Parsers, t: JavaType, value: string)
    ensures FirstAssignable(t, TEXT_TARGETS).None? ==> CastString(lib, t, value) == Err(UnsupportedFieldType(t))
    ensures CastString(lib, t, value).Ok? ==>
      ClassOf(CastString(lib, t, value).value) == TEXT_TARGETS[FirstAssignable(t, TEXT_TARGETS).value]
  {
    TextBranchIsFirstAssignable(t);
    NoBranchRefused(lib, t, value);
    BranchGivesClass(lib, t, value);
  }

  /** Only a field that none of the text branches fits is refused as unsupported. */
  lemma FittingFieldNeverRefused(lib: Parsers, t: JavaType, value: string)
    ensures FirstAssignable(t, TEXT_TARGETS).Some? ==> CastString(lib, t, value) != Err(UnsupportedFieldType(t))
  {
    TextBranchIsFirstAssignable(t);
    BranchNeverRefused(lib, t, value);
  }

  /**
   * Instant conversion is first-match over Timestamp, LocalDateTime,
   * java.sql.Date, java.util.Date.
   */
  lemma CastInstantFirstMatch(t: JavaType, value: Instant)
    ensures FirstAssignable(t, INSTANT_TARGETS).None? ==> CastInstant(t, value) == Err(UnsupportedFieldType(t))
    ensures CastInstant(t, value).Ok? ==>
      ClassOf(CastInstant(t, value).value) == INSTANT_TARGETS[FirstAssignable(t, INSTANT_TARGETS).value]
  {
    var k: Option<nat> :=
      if IsAssignableFrom(t, Timestamp) then Some(0)
      else if t == LocalDateTime then Some(1)
      else if t == SqlDate then Some(2)
      else None;
    FirstAssignableUnique(t, INSTANT_TARGETS, k);
  }

  /** An Object- or Number-typed field takes the Double branch, the first of the chain. */
  lemma ObjectAndNumberParseAsDouble(lib: Parsers, value: string)
    ensures CastString(lib, Object, value) == CastString(lib, Double, value)
    ensures CastString(lib, Number, value) == CastString(lib, Double, value)
    ensures CastString(lib, Double, value).Ok? ==> CastString(lib, Double, value).value.DoubleValue?
  {
  }

  /** Timestamp, java.sql.Date, java.sql.Time and unrelated classes have no text conversion. */
  lemma TextConversionUnsupported(lib: Parsers, t: JavaType, value: string)
    requires t == Timestamp || t == SqlDate || t == SqlTime || t.Other?
    ensures CastString(lib, t, value) == Err(UnsupportedFieldType(t))
  {
  }

  /** An Object field given "x" fails in the Double parse, with an IllegalArgumentException. */
  lemma ObjectWithGarbageFails(lib: Parsers)
    requires lib.doubleValueOf("x").None?
    ensures CastString(lib, Object, "x") == Err(NumberFormat("x"))
    ensures IsIllegalArgument(CastString(lib, Object, "x").error)
  {
  }

  /** Integer and Long targets give back every in-range number from its decimal rendering. */
  lemma IntegralRoundTrip(lib: Parsers, n: int)
    ensures Decimal.INT_MIN <= n <= Decimal.INT_MAX ==>
      CastString(lib, Integer, Decimal.ToDecimalString(n)) == Ok(IntValue(n))
    ensures Decimal.LONG_MIN <= n <= Decimal.LONG_MAX ==>
      CastString(lib, Long, Decimal.ToDecimalString(n)) == Ok(LongValue(n))
  {
    IntegerTargetRoundTrip(lib, n);
    LongTargetRoundTrip(lib, n);
  }

  lemma IntegerTargetRoundTrip(lib: Parsers, n: int)
    ensures Decimal.INT_MIN <= n <= Decimal.INT_MAX ==>
      CastString(lib, Integer, Decimal.ToDecimalString(n)) == Ok(IntValue(n))
  {
    if Decimal.INT_MIN <= n <= Decimal.INT_MAX {
      Decimal.IntRoundTrip(n);
    }
  }

  lemma LongTargetRoundTrip(lib: Parsers, n: int)
    ensures Decimal.LONG_MIN <= n <= Decimal.LONG_MAX ==>
      CastString(lib, Long, Decimal.ToDecimalString(n)) == Ok(LongValue(n))
  {
    if Decimal.LONG_MIN <= n <= Decimal.LONG_MAX {
      Decimal.LongRoundTrip(n);
    }
  }

  /** "42" becomes the Integer 42 and the Long 42. */
  lemma FortyTwo(lib: Parsers)
    ensures CastString(lib, Integer, "42") == Ok(IntValue(42))
    ensures CastString(lib, Long, "42") == Ok(LongValue(42))
  {
    assert Decimal.ToDecimalString(42) == "42";
    IntegralRoundTrip(lib, 42);
  }

  /** A String target returns its input unchanged. */
  lemma StringIsIdentity(lib: Parsers, value: string)
    ensures CastString(lib, String, value) == Ok(StrValue(value))
  {
  }

  /** Boolean conversion never fails: "true" in any letter case is true, any other text false. */
  lemma BooleanNeverFails(lib: Parsers, value: string)
    ensures CastString(lib, Boolean, value).Ok?
    ensures CastString(lib, Boolean, value).value == BoolValue(EqualsIgnoreCase("true", value))
    ensures value == "TRUE" || value == "True" ==> CastString(lib, Boolean, value).value == BoolValue(true)
    ensures value == "yes" || value == "" || value == "truth" ==> CastString(lib, Boolean, value).value == BoolValue(false)
  {
    if value == "TRUE" || value == "True" {
      assert forall i :: 0 <= i < 4 ==> AsciiLower("true"[i]) == AsciiLower(value[i]);
    }
    if value == "yes" {
      assert AsciiLower("true"[0]) != AsciiLower(value[0]);
    }
  }

  /**
   * A java.util.Date target reads the text as an ISO-8601 instant and keeps
   * its epoch milliseconds; text that is not an instant fails the parse, and
   * an instant whose milliseconds do not fit a long fails in `Date.from`.
   */
  lemma UtilDateFromInstant(lib: Parsers, value: string)
    ensures (lib.instantParse(value).Some? &&
      Decimal.LONG_MIN <= ToEpochMilli(lib.instantParse(value).value) <= Decimal.LONG_MAX) ==>
        CastString(lib, UtilDate, value) == Ok(DateValue(ToEpochMilli(lib.instantParse(value).value)))
    ensures (lib.instantParse(value).Some? &&
      !(Decimal.LONG_MIN <= ToEpochMilli(lib.instantParse(value).value) <= Decimal.LONG_MAX)) ==>
        CastString(lib, UtilDate, value) == Err(LONG_OVERFLOW)
    ensures lib.instantParse(value).None? ==> CastString(lib, UtilDate, value) == Err(DateTimeParse(value))
  {
  }

  /**
   * A LocalDateTime target tries the ISO local date-time parse first and
   * falls back to an instant read at UTC; it fails only when both fail.
   */
  lemma LocalDateTimeFallback(lib: Parsers, value: string)
    ensures lib.localDateTimeParse(value).Some? ==>
      CastString(lib, LocalDateTime, value) == Ok(LocalDateTimeValue(lib.localDateTimeParse(value).value))
    ensures lib.localDateTimeParse(value).None? && lib.instantParse(value).Some? ==>
      CastString(lib, LocalDateTime, value) == Ok(LocalDateTimeValue(lib.instantParse(value).value))
    ensures CastString(lib, LocalDateTime, value).Err? <==>
      lib.localDateTimeParse(value).None? && lib.instantParse(value).None?
  {
  }

  /**
   * The java.util.Date branch of the instant conversion is dead: every class
   * that can hold a Date can hold a Timestamp, which is tried first.
   */
  lemma InstantDateBranchUnreachable(t: JavaType, value: Instant)
    ensures FirstAssignable(t, INSTANT_TARGETS) != Some(3)
    ensures CastInstant(t, value).Ok? ==> !CastInstant(t, value).value.DateValue?
    ensures IsAssignableFrom(t, UtilDate) ==> CastInstant(t, value) == Ok(TimestampValue(value))
  {
  }

  /** The instant conversion of each temporal class, and its failure on every other class. */
  lemma InstantConversions(t: JavaType, value: Instant)
    ensures CastInstant(LocalDateTime, value) == Ok(LocalDateTimeValue(value))
    ensures CastInstant(SqlDate, value) == Ok(SqlDateValue(ToEpochMilli(value)))
    ensures t !in {Object, UtilDate, Timestamp, LocalDateTime, SqlDate} ==>
      CastInstant(t, value) == Err(UnsupportedFieldType(t))
  {
  }
}
