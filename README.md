# Filter-to-predicate compiler, modelled in Dafny

This project models the query-specification compiler of the
`com.chadtalty.commons.data.access` package. A client sends search criteria:
field/operator/value filters, join constraints, sort keys and page
parameters. The compiler turns them into one predicate over the stored
entities, plus a page request. The parts modelled are:

- **Value conversion** (`AbstractFilterHandler.castToRequiredType`, both overloads).
  A wire string or an instant becomes a value of the entity attribute's declared
  Java class. The class is chosen by `isAssignableFrom` tests taken in a fixed
  order, and the first test that passes decides.
- **The handler registry** (`FilterHandlerFactory`). This is a class whose map
  field `register` updates and `getFilterHandler` reads.
- **The four handlers.** Basic comparisons, date-time comparisons, IN and BETWEEN.
  Each is a class. Its `Init` registers it and fills its operator table. Its
  `Handle` picks a builder or refuses the filter.
- **The DAO's composition** (`AbstractDAO`). This covers the AND-fold of the
  filter and join specifications, the join equality, `findById`,
  `getQueryResult` and the page request.

JPA's Criteria API is replaced by a predicate syntax tree, `CriteriaBuilder.Pred`,
and an evaluator, `CriteriaBuilder.Holds`, over a stored row.

- An absent attribute is SQL NULL and satisfies no comparison.
- A joined attribute is satisfied when some joined entity satisfies it.
- Numbers compare by value.
- Every temporal value sits on one nanosecond time line.

Spring's `Specification` lambdas are defunctionalized into
`Specification.Spec`, with one constructor per lambda the source returns.
`Specification.ToPredicate` plays the part of `toPredicate`.

Failures therefore fall into two groups, as in the source:

- **Thrown while the search specification is built:** an unregistered filter type
  (`createSpecification` dereferences the missing handler, `AbstractDAO.java:139`),
  and, inside `handle`, a wrong filter class and an unsupported or null operator.
- **Thrown only when the specification meets the metamodel:** an unknown attribute,
  a failed conversion, the `(Number)` cast, an unsupported temporal class, and a
  join whose filter is not a basic filter (the cast at `AbstractDAO.java:130`).

The first group comes first: `Dao.QueryFailsOnFirstUnhandledFilter` shows that
the first refused filter decides the exception. Within the second group the
filters' exceptions come before the joins' (`Dao.QueryLazyFailure`). Neither
group depends on the stored rows, so both arise in
`Dao.AbstractDAO.GetQueryResult` before any row is examined. The model
reports each exception as raised; the repository proxy's translation of the
second group's IllegalArgumentExceptions is not modelled (see "Left out").

Modules, in dependency order:

- `JavaLang`: Java classes, values and exceptions.
- `Decimal`: `Integer.valueOf`, `Long.valueOf` and decimal rendering.
- `CriteriaBuilder`, then `Query`: the filter and criteria descriptors.
- `AbstractFilterHandler`.
- The four builder modules: `BasicOperations`, `DateTimeOperations`, `ContainsOperations`
  and `BetweenOperations`.
- `Specification`, then `Registry`.
- `FilterHandlers`: the handler classes and `Startup`.
- `Dao`.

Facts about the code that the model keeps:

- **BETWEEN** passes the two raw instants to `between` on the untyped path
  (`BetweenFilterHandler.java:30-31`). It converts neither bound to the
  field's temporal class and never refuses a field type. The repository's own
  `BetweenFilterHandlerTest` expects converted bounds.
- **Conversions run late.** The handlers' builders look fields up and convert
  values inside the returned lambdas, so a conversion failure is raised when
  the specification is turned into a predicate, still before the repository
  runs the query.
- **A java.sql.Date operand** is `new java.sql.Date(instant.toEpochMilli())`
  (`AbstractFilterHandler.java:77`): it keeps the instant's milliseconds.
- **The date-time NOT_EQUAL builder** converts its operand exactly as EQUAL does.
  `DateTimeOperations.SameOperandForEveryOperator` proves this.
- **An unregistered filter type** ends in a NullPointerException, from calling
  `handle` on the null the registry returns (`AbstractDAO.java:139`).
- **A java.sql.Time field** is refused by the text conversion, which asks
  whether the field's class can hold a `java.util.Date` and not the other way
  round. The date-time builder asks the opposite question and compares such a
  field as a `java.util.Date`.
- **A blank sort key** is refused by `Sort.Order.asc`/`desc` while the orders
  are built, before `PageRequest.of` checks the page parameters.
- **`BetweenFilterHandler.java`** imports `FilterType` and `BetweenFilter` from another
  package than the other handlers. `FilterType` is treated as one enum here.

## Model

| member | source | states |
|---|---|---|
| JavaLang.Collect | src/main/java/com/chadtalty/commons/data/access/AbstractDAO.java:100-102 | gathering a stream of results gives every value, in order and with the same length, exactly when all succeed, and otherwise the first failure in list order |
| JavaLang.CollectStep | src/main/java/com/chadtalty/commons/data/access/filter/handler/ContainsFilterHandler.java:49-51 | one more element extends the gathered prefix by its value, or fails with its error, or keeps the prefix's failure |
| JavaLang.CollectKeepsError | src/main/java/com/chadtalty/commons/data/access/filter/handler/ContainsFilterHandler.java:49-51 | once a prefix fails, the whole sequence fails with that same error |
| Decimal.ParseSigned | src/main/java/com/chadtalty/commons/data/access/filter/handler/AbstractFilterHandler.java:36-39 | a parsed integer lies in the target range; empty text and a lone sign are refused |
| Decimal.ParseSignedRoundTrip | src/main/java/com/chadtalty/commons/data/access/filter/handler/AbstractFilterHandler.java:36-39 | parsing the decimal rendering of any in-range number gives that number back |
| Decimal.IntRoundTrip | src/main/java/com/chadtalty/commons/data/access/filter/handler/AbstractFilterHandler.java:36-37 | `Integer.valueOf` of the rendering of every int is that int |
| Decimal.LongRoundTrip | src/main/java/com/chadtalty/commons/data/access/filter/handler/AbstractFilterHandler.java:38-39 | `Long.valueOf` of the rendering of every long is that long |
| Decimal.IntOverflowRejected | src/main/java/com/chadtalty/commons/data/access/filter/handler/AbstractFilterHandler.java:36-39 | 2^31 is refused as an Integer and accepted as a Long |
| CriteriaBuilder.AttributeType | src/main/java/com/chadtalty/commons/data/access/filter/handler/BasicFilterHandler.java:51-52 | `root.get(field).getJavaType()` succeeds exactly for a mapped attribute, with its declared class, and otherwise fails with IllegalArgumentException naming the field |
| CriteriaBuilder.GreaterOrEqualIsOrOfBoth | src/main/java/com/chadtalty/commons/data/access/filter/handler/BasicFilterHandler.java:74-81 | `or(gt(x,v), equal(x,v))` admits exactly the rows `greaterThanOrEqualTo(x,v)` admits |
| CriteriaBuilder.LessOrEqualIsOrOfBoth | src/main/java/com/chadtalty/commons/data/access/filter/handler/BasicFilterHandler.java:86-93 | `or(lt(x,v), equal(x,v))` admits exactly the rows `lessThanOrEqualTo(x,v)` admits |
| CriteriaBuilder.ComparisonPredicateMeaning | src/main/java/com/chadtalty/commons/data/access/filter/handler/BasicFilterHandler.java:49-69 | on an attribute path, re-typed or not, each comparison predicate holds exactly when the attribute is non-null and compares with the value as named |
| AbstractFilterHandler.FirstAssignableFrom | src/main/java/com/chadtalty/commons/data/access/filter/handler/AbstractFilterHandler.java:33-58 | the position found is the first class in the list that the field type can hold; none is found only when it can hold none of them |
| AbstractFilterHandler.FirstAssignableUnique | src/main/java/com/chadtalty/commons/data/access/filter/handler/AbstractFilterHandler.java:33-58 | the first-match position is the unique position that is assignable with nothing assignable before it |
| AbstractFilterHandler.CastString | src/main/java/com/chadtalty/commons/data/access/filter/handler/AbstractFilterHandler.java:33-60 | a converted value's class is one the field type can hold; every failure is an IllegalArgumentException (NumberFormatException included) or a DateTimeParseException of the input |
| AbstractFilterHandler.CastInstant | src/main/java/com/chadtalty/commons/data/access/filter/handler/AbstractFilterHandler.java:70-82 | an instant becomes a Timestamp, a LocalDateTime at UTC or a java.sql.Date of its epoch milliseconds, of a class the field type can hold; the only failure is "Unsupported field type: <name>" |
| AbstractFilterHandler.TextBranchIsFirstAssignable | src/main/java/com/chadtalty/commons/data/access/filter/handler/AbstractFilterHandler.java:33-58 | the branch each field class takes is the first of Double, Integer, Long, Float, Boolean, BigDecimal, Date, LocalDateTime, String that it can hold |
| AbstractFilterHandler.CastStringFirstMatch | src/main/java/com/chadtalty/commons/data/access/filter/handler/AbstractFilterHandler.java:33-59 | text conversion yields the class of the first assignable target in that order; a field that can hold none of them is refused with "Unsupported field type" |
| AbstractFilterHandler.NoBranchRefused | src/main/java/com/chadtalty/commons/data/access/filter/handler/AbstractFilterHandler.java:33-59 | a field class that fits none of the text branches is refused with "Unsupported field type: <name>" |
| AbstractFilterHandler.BranchNeverRefused | src/main/java/com/chadtalty/commons/data/access/filter/handler/AbstractFilterHandler.java:33-58 | a field class with a text branch is never refused as unsupported |
| AbstractFilterHandler.BranchGivesClass | src/main/java/com/chadtalty/commons/data/access/filter/handler/AbstractFilterHandler.java:33-58 | a converted value has the class of its field's text branch |
| AbstractFilterHandler.FittingFieldNeverRefused | src/main/java/com/chadtalty/commons/data/access/filter/handler/AbstractFilterHandler.java:33-59 | a field that can hold one of the text targets is never refused as unsupported; only the fall-through refuses |
| AbstractFilterHandler.UtilDateFromInstant | src/main/java/com/chadtalty/commons/data/access/filter/handler/AbstractFilterHandler.java:46-48 | a java.util.Date field gets `Date.from(Instant.parse(v))`: the instant's epoch milliseconds when they fit a long, otherwise IllegalArgumentException from the overflow; an unparsable text fails with DateTimeParseException |
| AbstractFilterHandler.DateFrom | src/main/java/com/chadtalty/commons/data/access/filter/handler/AbstractFilterHandler.java:48 | `Date.from` succeeds exactly when the epoch milliseconds fit a long, keeping them; otherwise IllegalArgumentException wrapping "long overflow" |
| AbstractFilterHandler.CastInstantFirstMatch | src/main/java/com/chadtalty/commons/data/access/filter/handler/AbstractFilterHandler.java:70-81 | instant conversion yields the class of the first assignable target among Timestamp, LocalDateTime, java.sql.Date, java.util.Date, and refuses the rest |
| AbstractFilterHandler.ObjectAndNumberParseAsDouble | src/main/java/com/chadtalty/commons/data/access/filter/handler/AbstractFilterHandler.java:34-35 | an Object or Number field converts exactly as a Double field does, to a Double |
| AbstractFilterHandler.TextConversionUnsupported | src/main/java/com/chadtalty/commons/data/access/filter/handler/AbstractFilterHandler.java:59 | Timestamp, java.sql.Date, java.sql.Time and unrelated classes fail with "Unsupported field type: <name>" |
| AbstractFilterHandler.ObjectWithGarbageFails | src/main/java/com/chadtalty/commons/data/access/filter/handler/AbstractFilterHandler.java:34-35 | "x" on an Object field fails in the Double parse with a NumberFormatException, an IllegalArgumentException |
| AbstractFilterHandler.IntegralRoundTrip | src/main/java/com/chadtalty/commons/data/access/filter/handler/AbstractFilterHandler.java:36-39 | the rendering of every in-range number converts back to that Integer or Long |
| AbstractFilterHandler.IntegerTargetRoundTrip | src/main/java/com/chadtalty/commons/data/access/filter/handler/AbstractFilterHandler.java:36-37 | the rendering of every int converts back to that Integer |
| AbstractFilterHandler.LongTargetRoundTrip | src/main/java/com/chadtalty/commons/data/access/filter/handler/AbstractFilterHandler.java:38-39 | the rendering of every long converts back to that Long |
| AbstractFilterHandler.FortyTwo | src/main/java/com/chadtalty/commons/data/access/filter/handler/AbstractFilterHandler.java:36-39 | example only: "42" becomes Integer 42 and Long 42 |
| AbstractFilterHandler.StringIsIdentity | src/main/java/com/chadtalty/commons/data/access/filter/handler/AbstractFilterHandler.java:56-57 | a String field gets the input unchanged |
| AbstractFilterHandler.BooleanNeverFails | src/main/java/com/chadtalty/commons/data/access/filter/handler/AbstractFilterHandler.java:42-43 | Boolean conversion never fails and is true exactly for "true" in any letter case |
| AbstractFilterHandler.LocalDateTimeFallback | src/main/java/com/chadtalty/commons/data/access/filter/handler/AbstractFilterHandler.java:49-55 | the ISO local date-time parse is tried first, then the instant at UTC; the conversion fails exactly when both fail |
| AbstractFilterHandler.InstantDateBranchUnreachable | src/main/java/com/chadtalty/commons/data/access/filter/handler/AbstractFilterHandler.java:71-79 | the `Date.from` branch is never taken; every supertype of Date gets a Timestamp |
| AbstractFilterHandler.InstantConversions | src/main/java/com/chadtalty/commons/data/access/filter/handler/AbstractFilterHandler.java:70-81 | LocalDateTime and java.sql.Date targets get their conversions; every non-temporal class except Object is refused |
| BasicOperations.AsNumber | src/main/java/com/chadtalty/commons/data/access/filter/handler/BasicFilterHandler.java:62-63 | the `(Number)` cast passes exactly the numeric values unchanged and otherwise fails with ClassCastException naming the class |
| BasicOperations.BasicPredicate | src/main/java/com/chadtalty/commons/data/access/filter/handler/BasicFilterHandler.java:49-93 | an unknown field fails as such; every failure is a conversion failure or a ClassCastException |
| BasicOperations.BasicPredicateSucceeds | src/main/java/com/chadtalty/commons/data/access/filter/handler/BasicFilterHandler.java:49-93 | a builder succeeds exactly when the field's text converts and, for the four orderings, the value is a Number; otherwise it fails with the first failing step's error |
| BasicOperations.BasicPredicateShape | src/main/java/com/chadtalty/commons/data/access/filter/handler/BasicFilterHandler.java:49-93 | every builder compares with the converted value, never the raw text; GE and LE are `or(gt, equal)` and `or(lt, equal)` over the same converted value |
| BasicOperations.BasicPredicateMeaning | src/main/java/com/chadtalty/commons/data/access/filter/handler/BasicFilterHandler.java:49-93 | a basic predicate admits exactly the rows whose field is non-null and compares with the converted value as the operator says (GE means at least, LE at most) |
| BasicOperations.BoundaryIncluded | src/main/java/com/chadtalty/commons/data/access/filter/handler/BasicFilterHandler.java:74-93 | on a row whose field equals the numeric value, GE and LE build and both hold |
| BasicOperations.BoundaryExcluded | src/main/java/com/chadtalty/commons/data/access/filter/handler/BasicFilterHandler.java:61-69 | on a row whose field equals the numeric value, GT and LT build and neither holds |
| BasicOperations.EqualConvertsText | src/main/java/com/chadtalty/commons/data/access/filter/handler/BasicFilterHandler.java:49-59 | on an Integer field, the decimal text of any int gives `equal` and `notEqual` with that Integer, not with the text |
| BasicOperations.OrderingOnOperandFails | src/main/java/com/chadtalty/commons/data/access/filter/handler/BasicFilterHandler.java:61-93 | an ordering whose converted operand is not a Number fails with ClassCastException naming the operand's class |
| BasicOperations.OrderingOnNonNumericFails | src/main/java/com/chadtalty/commons/data/access/filter/handler/BasicFilterHandler.java:61-69 | GT, LT, GE and LE on a Boolean or String field fail with ClassCastException to Number |
| DateTimeOperations.TemporalTarget | src/main/java/com/chadtalty/commons/data/access/filter/handler/DateTimeFilterHandler.java:60-77 | the chosen temporal class is one of the four and the field's class is a subclass of it |
| DateTimeOperations.DateTimePredicate | src/main/java/com/chadtalty/commons/data/access/filter/handler/DateTimeFilterHandler.java:55-209 | an unknown field and a non-temporal field fail (the latter with the message naming field and class); every failure is an IllegalArgumentException |
| DateTimeOperations.TemporalTargetOrder | src/main/java/com/chadtalty/commons/data/access/filter/handler/DateTimeFilterHandler.java:60-77 | Timestamp, LocalDateTime and java.sql.Date fields are each compared as their own class (a Timestamp never falls into the Date branch); java.util.Date and java.sql.Time fields are compared as java.util.Date; every other class is refused |
| DateTimeOperations.TimeFieldComparedAsDate | src/main/java/com/chadtalty/commons/data/access/filter/handler/DateTimeFilterHandler.java:60-77 | a java.sql.Time field is compared as `as(Date)` against the instant as a Timestamp, although the instant conversion alone refuses java.sql.Time |
| DateTimeOperations.DateTimePredicateShape | src/main/java/com/chadtalty/commons/data/access/filter/handler/DateTimeFilterHandler.java:55-209 | a builder succeeds exactly for a temporal field; it compares the path re-typed as that class with the instant converted to it, and the downcast of that value always succeeds |
| DateTimeOperations.SameOperandForEveryOperator | src/main/java/com/chadtalty/commons/data/access/filter/handler/DateTimeFilterHandler.java:159-209 | all six operators, NOT_EQUAL included, succeed or fail together and use the same path and operand |
| DateTimeOperations.DateTimePredicateMeaning | src/main/java/com/chadtalty/commons/data/access/filter/handler/DateTimeFilterHandler.java:55-209 | a temporal predicate admits exactly the rows whose field compares with the converted instant as the operator says |
| DateTimeOperations.BoundaryInstant | src/main/java/com/chadtalty/commons/data/access/filter/handler/DateTimeFilterHandler.java:55-157 | on a Timestamp field holding the filter's instant, AFTER and BEFORE exclude the row; AFTER_OR_EQUAL, BEFORE_OR_EQUAL and EQUAL include it; NOT_EQUAL excludes it |
| DateTimeOperations.ObjectFieldRefused | src/main/java/com/chadtalty/commons/data/access/filter/handler/DateTimeFilterHandler.java:77 | an Object field is refused with the unsupported-temporal message, although the instant conversion would accept it |
| ContainsOperations.ConvertAll | src/main/java/com/chadtalty/commons/data/access/filter/handler/ContainsFilterHandler.java:47-52 | the list converts exactly when every element does, element by element and in order, with the same length; otherwise it fails with the first failing element's error |
| ContainsOperations.Conversions | src/main/java/com/chadtalty/commons/data/access/filter/handler/ContainsFilterHandler.java:49-51 | one conversion outcome per value, in order, each with the field's one class |
| ContainsOperations.InPredicate | src/main/java/com/chadtalty/commons/data/access/filter/handler/ContainsFilterHandler.java:44-54 | an unknown field fails with IllegalArgumentException naming it |
| ContainsOperations.BuildIn | src/main/java/com/chadtalty/commons/data/access/filter/handler/ContainsFilterHandler.java:44-54 | the loop that adds one converted value per iteration produces exactly `InPredicate` |
| ContainsOperations.InPredicateMeaning | src/main/java/com/chadtalty/commons/data/access/filter/handler/ContainsFilterHandler.java:44-54 | an IN predicate admits exactly the rows whose field is non-null and equals one of the converted values |
| ContainsOperations.InValuesOnePerInput | src/main/java/com/chadtalty/commons/data/access/filter/handler/ContainsFilterHandler.java:47-52 | the IN list has one entry per input, duplicates kept, each converted with the field's one class |
| ContainsOperations.EmptyInMatchesNothing | src/main/java/com/chadtalty/commons/data/access/filter/handler/ContainsFilterHandler.java:49-51 | an empty value list gives an IN with no values, which admits no row |
| ContainsOperations.InFailsOnAnyBadValue | src/main/java/com/chadtalty/commons/data/access/filter/handler/ContainsFilterHandler.java:50 | one value that fails to convert makes the IN fail, with the error of the first failing value |
| BetweenOperations.BetweenPredicate | src/main/java/com/chadtalty/commons/data/access/filter/handler/BetweenFilterHandler.java:29-31 | the range builds exactly when the field exists, otherwise fails naming it |
| BetweenOperations.BetweenUsesRawInstants | src/main/java/com/chadtalty/commons/data/access/filter/handler/BetweenFilterHandler.java:30-31 | the bounds are the raw instants on the untyped path |
| BetweenOperations.BetweenMeaning | src/main/java/com/chadtalty/commons/data/access/filter/handler/BetweenFilterHandler.java:29-31 | BETWEEN admits exactly the rows whose field holds a temporal value at or after start and at or before end |
| BetweenOperations.InvertedRangeMatchesNothing | src/main/java/com/chadtalty/commons/data/access/filter/handler/BetweenFilterHandler.java:28-31 | a range with start after end is accepted and admits no row |
| BetweenOperations.AugustRange | src/main/java/com/chadtalty/commons/data/access/filter/handler/BetweenFilterHandler.java:28-31 | example only: 2025-08-01T00:00:00Z to 2025-08-31T23:59:59Z admits 2025-08-15T12:00:00Z and its own start, and not 2025-09-01T00:00:00Z |
| Specification.JoinPredicate | src/main/java/com/chadtalty/commons/data/access/AbstractDAO.java:127-133 | the join succeeds exactly for a known relation, a basic filter and a known joined field, giving equality with the raw text; a non-basic filter fails with ClassCastException |
| Specification.Combine | src/main/java/com/chadtalty/commons/data/access/AbstractDAO.java:93 | composing two possibly-null predicates admits exactly the rows both admit |
| Specification.ComposedMeaning | src/main/java/com/chadtalty/commons/data/access/AbstractDAO.java:93 | `lhs.and(rhs)` yields a predicate exactly when both sides do; a failing left side's error comes first, then the right side's; it admits exactly the rows both admit |
| Specification.UnrestrictedAdmitsAll | src/main/java/com/chadtalty/commons/data/access/AbstractDAO.java:93 | `where(null)` admits every row and a null right operand of `and` changes nothing |
| Specification.Reduce | src/main/java/com/chadtalty/commons/data/access/AbstractDAO.java:99-106 | the fold of `and` is empty exactly for the empty list |
| Specification.ReduceMeaning | src/main/java/com/chadtalty/commons/data/access/AbstractDAO.java:99-118 | the fold of `and` yields a predicate exactly when every specification does, otherwise fails with the first failure in list order, and admits exactly the rows every specification admits |
| Specification.ReduceSucceeds | src/main/java/com/chadtalty/commons/data/access/AbstractDAO.java:99-118 | the fold of `and` yields a predicate exactly when every specification does |
| Specification.ReduceFailure | src/main/java/com/chadtalty/commons/data/access/AbstractDAO.java:99-118 | a failing fold fails with the exception of a specification all of whose predecessors succeed |
| Specification.ReduceAdmits | src/main/java/com/chadtalty/commons/data/access/AbstractDAO.java:99-118 | the fold of `and` admits exactly the rows every specification admits |
| Specification.ReduceFirstError | src/main/java/com/chadtalty/commons/data/access/AbstractDAO.java:99-118 | the fold fails with exactly the exception of the first failing specification |
| Registry.FilterHandlerFactory.constructor | src/main/java/com/chadtalty/commons/data/access/filter/handler/FilterHandlerFactory.java:16 | a new registry is empty |
| Registry.FilterHandlerFactory.Register | src/main/java/com/chadtalty/commons/data/access/filter/handler/FilterHandlerFactory.java:19-21 | after `register(t, h)` the lookup of t is h and every other type's lookup is unchanged |
| Registry.FilterHandlerFactory.GetFilterHandler | src/main/java/com/chadtalty/commons/data/access/filter/handler/FilterHandlerFactory.java:24-26 | the lookup finds exactly the registered types, with their handlers, and reads without changing the registry |
| Registry.RegisterTwice | src/main/java/com/chadtalty/commons/data/access/filter/handler/FilterHandlerFactory.java:19-21 | registering a type twice keeps only the last handler |
| Registry.LookupInFreshFactory | src/main/java/com/chadtalty/commons/data/access/filter/handler/FilterHandlerFactory.java:24-26 | a type never registered is looked up as null |
| FilterHandlers.BasicFilterHandler.constructor | src/main/java/com/chadtalty/commons/data/access/filter/handler/BasicFilterHandler.java:25-28 | a new handler holds the registry and an empty operator table |
| FilterHandlers.BasicTableFilled | src/main/java/com/chadtalty/commons/data/access/filter/handler/BasicFilterHandler.java:32-38 | the six puts of `init` leave exactly the six-operator table, whatever the table held before |
| FilterHandlers.BasicFilterHandler.Init | src/main/java/com/chadtalty/commons/data/access/filter/handler/BasicFilterHandler.java:30-39 | `init` registers the handler under BASIC and maps exactly the six operators, each to its comparison |
| FilterHandlers.BasicFilterHandler.Handle | src/main/java/com/chadtalty/commons/data/access/filter/handler/BasicFilterHandler.java:42-47 | another filter class is refused with ClassCastException; an operator missing from the table or null is refused with "Operation not supported: <operator>"; otherwise the result is the builder the table maps the operator to |
| FilterHandlers.DateTimeFilterHandler.constructor | src/main/java/com/chadtalty/commons/data/access/filter/handler/DateTimeFilterHandler.java:31-34 | a new handler holds the registry and an empty operator table |
| FilterHandlers.DateTimeTableFilled | src/main/java/com/chadtalty/commons/data/access/filter/handler/DateTimeFilterHandler.java:38-44 | the six puts of `init` leave exactly the six-operator table, whatever the table held before |
| FilterHandlers.DateTimeFilterHandler.Init | src/main/java/com/chadtalty/commons/data/access/filter/handler/DateTimeFilterHandler.java:36-45 | `init` registers under DATE_TIME and maps AFTER, AFTER_OR_EQUAL, BEFORE, BEFORE_OR_EQUAL, EQUAL and NOT_EQUAL to GT, GE, LT, LE, EQ and NE |
| FilterHandlers.DateTimeFilterHandler.Handle | src/main/java/com/chadtalty/commons/data/access/filter/handler/DateTimeFilterHandler.java:48-53 | another filter class is refused with ClassCastException; a missing or null operator is refused with "Operation not supported: <operator>"; otherwise the result is the mapped temporal builder |
| FilterHandlers.ContainsFilterHandler.constructor | src/main/java/com/chadtalty/commons/data/access/filter/handler/ContainsFilterHandler.java:22-25 | a new handler holds the registry and an empty operator table |
| FilterHandlers.ContainsFilterHandler.Init | src/main/java/com/chadtalty/commons/data/access/filter/handler/ContainsFilterHandler.java:27-31 | `init` registers under CONTAINS and maps only IN |
| FilterHandlers.ContainsFilterHandler.Handle | src/main/java/com/chadtalty/commons/data/access/filter/handler/ContainsFilterHandler.java:33-39 | another filter class is refused with ClassCastException; a missing or null operator is refused with "Operation not supported: <operator>"; otherwise the result is the IN builder over the filter's values |
| FilterHandlers.BetweenFilterHandler.constructor | src/main/java/com/chadtalty/commons/data/access/filter/handler/BetweenFilterHandler.java:16 | a new handler holds the registry |
| FilterHandlers.BetweenFilterHandler.Init | src/main/java/com/chadtalty/commons/data/access/filter/handler/BetweenFilterHandler.java:18-21 | `init` registers the handler under BETWEEN |
| FilterHandlers.BetweenFilterHandler.Handle | src/main/java/com/chadtalty/commons/data/access/filter/handler/BetweenFilterHandler.java:24-36 | another filter class is refused with ClassCastException; a null operator with NullPointerException; any constant but BETWEEN with "Operation not supported."; BETWEEN gives the range over the filter's field and instants |
| FilterHandlers.Startup | src/main/java/com/chadtalty/commons/data/access/filter/handler/FilterHandlerFactory.java:16-21 | after the four `init`s each filter type is registered to its handler and every operator table is full (`Started`) |
| FilterHandlers.BeforeInitEverythingUnsupported | src/main/java/com/chadtalty/commons/data/access/filter/handler/BasicFilterHandler.java:42-47 | before `init` every basic, date-time and contains filter is refused as an unsupported operation |
| FilterHandlers.BasicHandleAfterInit | src/main/java/com/chadtalty/commons/data/access/filter/handler/BasicFilterHandler.java:30-47 | after `init` every basic operator gives the builder of the comparison it names, for any field and text; null is refused as "Operation not supported: null" |
| FilterHandlers.DateTimeHandleAfterInit | src/main/java/com/chadtalty/commons/data/access/filter/handler/DateTimeFilterHandler.java:36-53 | after `init` every date-time operator gives the builder of the comparison it names; null is refused |
| FilterHandlers.ContainsHandleAfterInit | src/main/java/com/chadtalty/commons/data/access/filter/handler/ContainsFilterHandler.java:27-39 | after `init` IN gives the IN builder; null is refused |
| FilterHandlers.BasicFilterMeaning | src/main/java/com/chadtalty/commons/data/access/filter/handler/BasicFilterHandler.java:30-93 | a basic filter handled after `init` admits exactly the rows whose field compares with the converted text as its operator says |
| FilterHandlers.DateTimeFilterMeaning | src/main/java/com/chadtalty/commons/data/access/filter/handler/DateTimeFilterHandler.java:36-209 | a date-time filter handled after `init` admits exactly the rows whose field compares with the converted instant as its operator says |
| FilterHandlers.ContainsFilterMeaning | src/main/java/com/chadtalty/commons/data/access/filter/handler/ContainsFilterHandler.java:27-54 | an IN filter handled after `init` builds, and admits exactly the rows whose field equals one of the converted values |
| FilterHandlers.BetweenFilterMeaning | src/main/java/com/chadtalty/commons/data/access/filter/handler/BetweenFilterHandler.java:18-36 | a between filter on a known field builds, and admits exactly the rows whose field holds a temporal value in the closed range of the raw instants |
| FilterHandlers.BetweenHandleIgnoresInit | src/main/java/com/chadtalty/commons/data/access/filter/handler/BetweenFilterHandler.java:24-36 | the between handler's answer does not depend on `init`; BETWEEN always gives the range |
| Dao.Lookup | src/main/java/com/chadtalty/commons/data/access/AbstractDAO.java:44 | the entity found has the id and is stored; none is found only when no stored entity has it |
| Dao.Select | src/main/java/com/chadtalty/commons/data/access/AbstractDAO.java:69 | the repository returns exactly the stored entities the predicate admits, and all of them for a null predicate |
| Dao.JoinSpecifications | src/main/java/com/chadtalty/commons/data/access/AbstractDAO.java:113-114 | one join specification per join, in order |
| Dao.ApplyJoins | src/main/java/com/chadtalty/commons/data/access/AbstractDAO.java:111-118 | the join part is null exactly for a null or empty join list |
| Dao.AbstractDAO.constructor | src/main/java/com/chadtalty/commons/data/access/AbstractDAO.java:36-40 | the DAO holds the given repository and registry |
| Dao.AbstractDAO.FindById | src/main/java/com/chadtalty/commons/data/access/AbstractDAO.java:43-45 | a stored entity with the id is returned; none fails with EntityNotFoundException "Entity not found: <id>" |
| Dao.AbstractDAO.CreateSpecification | src/main/java/com/chadtalty/commons/data/access/AbstractDAO.java:138-140 | a filter whose type has a registered handler gets exactly that handler's `handle`; one whose type has none fails with NullPointerException |
| Dao.AbstractDAO.CreateAll | src/main/java/com/chadtalty/commons/data/access/AbstractDAO.java:100-102 | the filters' specifications are created in order, with the same length, exactly when each one succeeds; otherwise the first failing filter's error |
| Dao.AbstractDAO.Creations | src/main/java/com/chadtalty/commons/data/access/AbstractDAO.java:100-101 | one `createSpecification` outcome per filter, in order |
| Dao.AbstractDAO.ApplyFilters | src/main/java/com/chadtalty/commons/data/access/AbstractDAO.java:99-106 | the filter part is built exactly when every filter's specification is created, and is null exactly for a null or empty list; otherwise the first failing filter's error |
| Dao.AbstractDAO.BuildSearchSpecification | src/main/java/com/chadtalty/commons/data/access/AbstractDAO.java:92-94 | the search specification is built exactly when `createSpecification` succeeds for every filter (joins never fail here); otherwise it fails with the first failing filter's error |
| Dao.AbstractDAO.GetQueryResult | src/main/java/com/chadtalty/commons/data/access/AbstractDAO.java:67-70 | the result holds only stored entities |
| Dao.FilterPartMeaning | src/main/java/com/chadtalty/commons/data/access/AbstractDAO.java:99-106 | the filter part admits a row exactly when every filter's specification admits it |
| Dao.JoinPartMeaning | src/main/java/com/chadtalty/commons/data/access/AbstractDAO.java:111-118 | the join part admits a row exactly when every join's equality admits it |
| Dao.SearchMeaning | src/main/java/com/chadtalty/commons/data/access/AbstractDAO.java:92-94 | a stored entity is in the query result exactly when it satisfies every filter and every join |
| Dao.StartedBasicFilterMeaning | src/main/java/com/chadtalty/commons/data/access/AbstractDAO.java:138-140 | with the started registry, a basic filter is dispatched to the basic handler and admits exactly the rows whose field compares with the converted text as its operator says |
| Dao.StartedDateTimeFilterMeaning | src/main/java/com/chadtalty/commons/data/access/AbstractDAO.java:138-140 | with the started registry, a date-time filter admits exactly the rows whose field compares with the converted instant as its operator says |
| Dao.StartedContainsFilterMeaning | src/main/java/com/chadtalty/commons/data/access/AbstractDAO.java:138-140 | with the started registry, an IN filter admits exactly the rows whose field equals one of the converted values |
| Dao.StartedBetweenFilterMeaning | src/main/java/com/chadtalty/commons/data/access/AbstractDAO.java:138-140 | with the started registry, a between filter on a known field admits exactly the rows in the closed range |
| Dao.QueryFailsOnFirstUnhandledFilter | src/main/java/com/chadtalty/commons/data/access/AbstractDAO.java:67-70 | the first filter whose `createSpecification` fails decides the query's exception, whatever later specifications or joins would throw |
| Dao.FilterPartFailure | src/main/java/com/chadtalty/commons/data/access/AbstractDAO.java:92-106 | the filter part yields a predicate exactly when every filter's specification does, otherwise the first failing one's exception |
| Dao.JoinPartFailure | src/main/java/com/chadtalty/commons/data/access/AbstractDAO.java:111-133 | the join part yields a predicate exactly when every join does, otherwise the first failing join's exception |
| Dao.QueryLazyFailure | src/main/java/com/chadtalty/commons/data/access/AbstractDAO.java:67-70 | once every filter is handled, the query succeeds exactly when every filter specification and every join yields a predicate; the first failing filter's exception comes before any join's, then the first failing join's |
| Dao.EmptyCriteriaReturnsAll | src/main/java/com/chadtalty/commons/data/access/AbstractDAO.java:47-70 | null or empty filters and joins return the whole repository, as `findAll` does |
| Dao.UnregisteredFilterFails | src/main/java/com/chadtalty/commons/data/access/AbstractDAO.java:139 | a filter of an unregistered type makes the search fail with NullPointerException |
| Dao.JoinIsRawEquality | src/main/java/com/chadtalty/commons/data/access/AbstractDAO.java:127-133 | a join compares the joined field with the raw text, whatever the filter's operator, and admits a row exactly when some joined entity holds that text |
| Dao.OrdersOf | src/main/java/com/chadtalty/commons/data/access/AbstractDAO.java:147-153 | one order per key, in order, all of the given direction, exactly when every key has text; otherwise "Property must not be null or empty" |
| Dao.OrderOf | src/main/java/com/chadtalty/commons/data/access/AbstractDAO.java:149-153 | `Sort.Order.asc`/`desc` builds an order exactly for a key with text, otherwise IllegalArgumentException "Property must not be null or empty" |
| Dao.GetPageRequest | src/main/java/com/chadtalty/commons/data/access/AbstractDAO.java:146-158 | the request is built exactly when every sort key has text, page >= 0 and size >= 1, keeping page and size; a key without text fails first with "Property must not be null or empty", then the page-index message, then the page-size message |
| Dao.PageRequestSortOrder | src/main/java/com/chadtalty/commons/data/access/AbstractDAO.java:146-156 | the orders are every ascending key as ASC in order, then every descending key as DESC in order, \|asc\| + \|desc\| in all; no keys means unsorted |
| Dao.NullSortIsUnsorted | src/main/java/com/chadtalty/commons/data/access/AbstractDAO.java:148-156 | a null sort directive gives an unsorted request |
| Dao.BlankSortKeyRefused | src/main/java/com/chadtalty/commons/data/access/AbstractDAO.java:147-157 | an empty or all-whitespace sort key is refused even with valid page parameters |

## Left out

- **JDK parsers.** `Double.valueOf`, `Float.valueOf`, `new BigDecimal`, `Instant.parse` and `LocalDateTime.parse(ISO_DATE_TIME)` are passed in as the fields of `AbstractFilterHandler.Parsers`, as partial functions. Their grammars, rounding and the calendar arithmetic of `LocalDateTime.ofInstant` are not modelled.
- **Floats and decimals** are represented by the real number they denote. NaN and the infinities, which `Double.valueOf` and `Float.valueOf` accept ("NaN", "Infinity"), have no real number; the parsers passed in cannot return them.
- **`Integer.valueOf` and `Long.valueOf`** accept only ASCII digits here. Java also accepts the digits of other Unicode scripts.
- **Case folding.** `equalsIgnoreCase` is modelled for ASCII letters only.
- AbstractFilterHandler.CastInstant: the overflow of `Timestamp.from` and of `toEpochMilli` for instants beyond the 64-bit millisecond range is not modelled. The text conversion's `Date.from` overflow is modelled (`AbstractFilterHandler.DateFrom`).
- Dao.AbstractDAO.GetQueryResult: `toPredicate` runs inside the repository's `findAll`, and Spring Data's repository proxy translates persistence exceptions. The IllegalArgumentExceptions of the lazy group (an unknown attribute, "Unsupported field type", a NumberFormatException, the unsupported-temporal message) then reach the caller wrapped in an `InvalidDataAccessApiUsageException`. A DateTimeParseException and the join's ClassCastException pass through unchanged. The model returns the exception as raised, before that translation.
- **Null filter contents.** A null field name, a null value, instant or value list, a null element in the filter list, a null sort key and a null criteria object are not modelled. They end in NullPointerExceptions inside the JDK or JPA, or in the blank-key IllegalArgumentException. A null operator is modelled.
- **Exception messages from libraries.** Hibernate's unknown-attribute message is paraphrased. A ClassCastException carries only the two class names, not the JVM's full message text.
- **JPA and the database.** The model does not render SQL. It does not treat an empty IN specially; the model's empty IN admits nothing. It has no row duplication from to-many joins; `Dao.Select` returns each stored entity once. Type coercion of the raw join text against a non-string joined attribute is not modelled; such an attribute never equals the text here.
- **Sorting and paging execution.** `getQueryResultPage` hands the search specification and the page request to the repository, which sorts and pages. That execution is not modelled; the page request is.
- **Repository passthroughs.** `findAll()`, `findAll(Pageable)`, `count`, `existsById`, `save` and `getRepository` only delegate to the repository. `findAll()` appears only as the whole `repository` sequence.
- **Spring lifecycle.** Dependency injection, `@PostConstruct` and `@Valid` are not modelled. `Init` is an explicit call; `FilterHandlers.Startup` makes the four calls. Concurrent use of the registry is not modelled.
- **Enum constants not visible here.** The between-operator enum's other constants are represented by `Query.BetweenOperator.UnlistedBetweenOperator`. No other enum is assumed to have constants beyond those the handlers name.
- **Interfaces and older copies.** `DAO`, `FilterHandler`, `EntityRepository`, `EntityRepositoryImp`, `EntityMapper` and the older `com.calflany` copies of the handler, factory and DAO are not part of this model.
