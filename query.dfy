/**
 * The wire-level query descriptors the compiler consumes: filters, join
 * constraints, criteria and sort directives. These classes live outside the
 * data-access package; their shape is the one the handlers and the DAO read.
 */
module Query {
  import opened JavaLang

  /** The filter kind a `Filter.getType()` reports, the registry's key. */
  datatype FilterType = BASIC | BETWEEN | CONTAINS | DATE_TIME

  datatype BasicOperator =
    | EQUAL | NOT_EQUAL | GREATER_THAN | LESS_THAN | GREATER_THAN_OR_EQUAL | LESS_THAN_OR_EQUAL

  datatype DateTimeOperator =
    | AFTER | AFTER_OR_EQUAL | BEFORE | BEFORE_OR_EQUAL | EQUAL | NOT_EQUAL

  datatype ContainsOperator = IN

  /** BETWEEN, or any other constant of the between-operator enum (whose remaining constants are not visible here). */
  datatype BetweenOperator = BETWEEN | UnlistedBetweenOperator(constant: string)

  /** A filter; an operator of `None` is a JSON null. */
  datatype Filter =
    | BasicFilter(field: string, basicOperator: Option<BasicOperator>, value: string)
    | DateTimeFilter(field: string, dateTimeOperator: Option<DateTimeOperator>, instant: Instant)
    | ContainsFilter(field: string, containsOperator: Option<ContainsOperator>, values: seq<string>)
    | BetweenFilter(field: string, betweenOperator: Option<BetweenOperator>, startDateTime: Instant, endDateTime: Instant)
  {
    /** `getType()`: each filter class reports its own kind. */
    function Type(): FilterType {
      match this
      case BasicFilter(_, _, _) => BASIC
      case DateTimeFilter(_, _, _) => DATE_TIME
      case ContainsFilter(_, _, _) => CONTAINS
      case BetweenFilter(_, _, _, _) => FilterType.BETWEEN
    }
  }

  /** `getClass().getName()` of each filter class. */
  function FilterClassName(f: Filter): string {
    match f
    case BasicFilter(_, _, _) => "com.chadtalty.commons.data.query.BasicFilter"
    case DateTimeFilter(_, _, _) => "com.chadtalty.commons.data.query.DateTimeFilter"
    case ContainsFilter(_, _, _) => "com.chadtalty.commons.data.query.ContainsFilter"
    case BetweenFilter(_, _, _, _) => "com.chadtalty.commons.data.query.filter.BetweenFilter"
  }

  /** `String.valueOf(operator)`: the constant's name, or "null". */
  function BasicOperatorName(op: Option<BasicOperator>): string {
    if op.None? then "null"
    else match op.value
      case EQUAL => "EQUAL"
      case NOT_EQUAL => "NOT_EQUAL"
      case GREATER_THAN => "GREATER_THAN"
      case LESS_THAN => "LESS_THAN"
      case GREATER_THAN_OR_EQUAL => "GREATER_THAN_OR_EQUAL"
      case LESS_THAN_OR_EQUAL => "LESS_THAN_OR_EQUAL"
  }

  function DateTimeOperatorName(op: Option<DateTimeOperator>): string {
    if op.None? then "null"
    else match op.value
      case AFTER => "AFTER"
      case AFTER_OR_EQUAL => "AFTER_OR_EQUAL"
      case BEFORE => "BEFORE"
      case BEFORE_OR_EQUAL => "BEFORE_OR_EQUAL"
      case EQUAL => "EQUAL"
      case NOT_EQUAL => "NOT_EQUAL"
  }

  function ContainsOperatorName(op: Option<ContainsOperator>): string {
    match op
    case None => "null"
    case Some(IN) => "IN"
  }

  /** A join constraint: the relation to join and the filter whose field and value it compares. */
  datatype JoinSpec = JoinSpec(join: string, filter: Filter)

  /** Filters and joins, each list possibly null. */
  datatype Criteria = Criteria(filters: Option<seq<Filter>>, joins: Option<seq<JoinSpec>>)

  /** Sort keys, each list possibly null. */
  datatype SortSpec = SortSpec(ascending: Option<seq<string>>, descending: Option<seq<string>>)

  datatype PageableCriteria = PageableCriteria(criteria: Criteria, page: int, size: int, sort: Option<SortSpec>)
}
