/**
 * The four filter handlers. Each holds the shared registry; the three that
 * extend the conversion base class also hold an operator table that `init`
 * fills and `handle` dispatches through. `handle` only picks the builder:
 * it fails at once for a filter of the wrong class or an operator without a
 * builder, and otherwise returns the deferred specification.
 */
module FilterHandlers {
  import opened JavaLang
  import opened CriteriaBuilder
  import opened Query
  import opened AbstractFilterHandler
  import opened Specification
  import opened Registry
  import BasicOperations
  import DateTimeOperations
  import ContainsOperations

  /** A registered handler: the registry holds handlers of the four classes. */
  datatype HandlerRef =
    | BasicRef(basic: BasicFilterHandler)
    | DateTimeRef(dateTime: DateTimeFilterHandler)
    | ContainsRef(contains: ContainsFilterHandler)
    | BetweenRef(between: BetweenFilterHandler)
  {
    /** The handler object this reference points to. */
    function Target(): object {
      match this
      case BasicRef(h) => h
      case DateTimeRef(h) => h
      case ContainsRef(h) => h
      case BetweenRef(h) => h
    }
  }

  /** The handler objects a registry map refers to. */
  function HandlerObjects(m: map<FilterType, HandlerRef>): set<object> {
    set t | t in m :: m[t].Target()
  }

  function NotSupported(operatorName: string): Error {
    UnsupportedOperation("Operation not supported: " + operatorName)
  }

  /** What each basic operator means. */
  function BasicComparison(op: BasicOperator): Comparison {
    match op
    case EQUAL => EQ
    case NOT_EQUAL => NE
    case GREATER_THAN => GT
    case LESS_THAN => LT
    case GREATER_THAN_OR_EQUAL => GE
    case LESS_THAN_OR_EQUAL => LE
  }

  /** What each date-time operator means. */
  function DateTimeComparison(op: DateTimeOperator): Comparison {
    match op
    case AFTER => GT
    case AFTER_OR_EQUAL => GE
    case BEFORE => LT
    case BEFORE_OR_EQUAL => LE
    case EQUAL => EQ
    case NOT_EQUAL => NE
  }

  /** The basic handler's table after `init`: each operator to the builder of its comparison. */
  const BASIC_OPERATIONS: map<BasicOperator, Comparison> := map[
    BasicOperator.EQUAL := EQ, BasicOperator.NOT_EQUAL := NE, GREATER_THAN := GT,
    LESS_THAN := LT, GREATER_THAN_OR_EQUAL := GE, LESS_THAN_OR_EQUAL := LE]

  /** The date-time handler's table after `init`. */
  const DATE_TIME_OPERATIONS: map<DateTimeOperator, Comparison> := map[
    AFTER := GT, AFTER_OR_EQUAL := GE, BEFORE := LT, BEFORE_OR_EQUAL := LE,
    DateTimeOperator.EQUAL := EQ, DateTimeOperator.NOT_EQUAL := NE]

  /** The only builder of the contains handler. */
  datatype ContainsBuilder = InBuilder

  /** The contains handler's table after `init`. */
  const CONTAINS_OPERATIONS: map<ContainsOperator, ContainsBuilder> := map[IN := InBuilder]

  /** The six puts of the basic `init` leave exactly the basic table, whatever the table held before. */
  lemma BasicTableFilled(m: map<BasicOperator, Comparison>)
    ensures m[BasicOperator.EQUAL := EQ][BasicOperator.NOT_EQUAL := NE][GREATER_THAN := GT]
      [LESS_THAN := LT][GREATER_THAN_OR_EQUAL := GE][LESS_THAN_OR_EQUAL := LE] == BASIC_OPERATIONS
  {
    var filled := m[BasicOperator.EQUAL := EQ][BasicOperator.NOT_EQUAL := NE][GREATER_THAN := GT]
      [LESS_THAN := LT][GREATER_THAN_OR_EQUAL := GE][LESS_THAN_OR_EQUAL := LE];
    forall k: BasicOperator ensures k in filled && k in BASIC_OPERATIONS && filled[k] == BASIC_OPERATIONS[k] {
      match k
      case EQUAL =>
      case NOT_EQUAL =>
      case GREATER_THAN =>
      case LESS_THAN =>
      case GREATER_THAN_OR_EQUAL =>
      case LESS_THAN_OR_EQUAL =>
    }
  }

  /** The six puts of the date-time `init` leave exactly the date-time table. */
  lemma DateTimeTableFilled(m: map<DateTimeOperator, Comparison>)
    ensures m[AFTER := GT][AFTER_OR_EQUAL := GE][BEFORE := LT][BEFORE_OR_EQUAL := LE]
      [DateTimeOperator.EQUAL := EQ][DateTimeOperator.NOT_EQUAL := NE] == DATE_TIME_OPERATIONS
  {
    var filled := m[AFTER := GT][AFTER_OR_EQUAL := GE][BEFORE := LT][BEFORE_OR_EQUAL := LE]
      [DateTimeOperator.EQUAL := EQ][DateTimeOperator.NOT_EQUAL := NE];
    forall k: DateTimeOperator ensures k in filled && k in DATE_TIME_OPERATIONS && filled[k] == DATE_TIME_OPERATIONS[k] {
      match k
      case AFTER =>
      case AFTER_OR_EQUAL =>
      case BEFORE =>
      case BEFORE_OR_EQUAL =>
      case EQUAL =>
      case NOT_EQUAL =>
    }
  }

  class BasicFilterHandler {
    const factory: FilterHandlerFactory<HandlerRef>
    var operations: map<BasicOperator, Comparison>

    constructor(factory: FilterHandlerFactory<HandlerRef>)
      ensures this.factory == factory && operations == map[]
    {
      this.factory := factory;
      operations := map[];
    }

    /** `init`: register under BASIC, then map the six operators. */
    method Init()
      modifies this, factory
      ensures operations == BASIC_OPERATIONS
      ensures factory.filterHandlerMap == old(factory.filterHandlerMap)[BASIC := BasicRef(this)]
    {
      factory.Register(BASIC, BasicRef(this));
      BasicTableFilled(operations);
      operations := operations[BasicOperator.EQUAL := EQ][BasicOperator.NOT_EQUAL := NE][GREATER_THAN := GT]
        [LESS_THAN := LT][GREATER_THAN_OR_EQUAL := GE][LESS_THAN_OR_EQUAL := LE];
    }

    /** `handle(f)`: cast to a basic filter, then the builder for its operator or `unsupportedOperation`. */
    function Handle(f: Filter): (r: Result<Spec>)
      reads this
      ensures !f.BasicFilter? ==> r == Err(ClassCast(FilterClassName(f), BASIC_FILTER_CLASS))
      ensures r.Err? ==> r.error.ClassCast? || r.error == NotSupported(BasicOperatorName(f.basicOperator))
      ensures r.Ok? ==>
        f.basicOperator.Some? && f.basicOperator.value in operations
        && r.value == BasicSpec(operations[f.basicOperator.value], f.field, f.value)
    {
      if !f.BasicFilter? then Err(ClassCast(FilterClassName(f), BASIC_FILTER_CLASS))
      else if f.basicOperator.None? || f.basicOperator.value !in operations then
        Err(NotSupported(BasicOperatorName(f.basicOperator)))
      else Ok(BasicSpec(operations[f.basicOperator.value], f.field, f.value))
    }
  }

  class DateTimeFilterHandler {
    const factory: FilterHandlerFactory<HandlerRef>
    var operations: map<DateTimeOperator, Comparison>

    constructor(factory: FilterHandlerFactory<HandlerRef>)
      ensures this.factory == factory && operations == map[]
    {
      this.factory := factory;
      operations := map[];
    }

    /** `init`: register under DATE_TIME, then map the six operators. */
    method Init()
      modifies this, factory
      ensures operations == DATE_TIME_OPERATIONS
      ensures factory.filterHandlerMap == old(factory.filterHandlerMap)[DATE_TIME := DateTimeRef(this)]
    {
      factory.Register(DATE_TIME, DateTimeRef(this));
      DateTimeTableFilled(operations);
      operations := operations[AFTER := GT][AFTER_OR_EQUAL := GE][BEFORE := LT][BEFORE_OR_EQUAL := LE]
        [DateTimeOperator.EQUAL := EQ][DateTimeOperator.NOT_EQUAL := NE];
    }

    /** `handle(f)`: cast to a date-time filter, then the builder for its operator or `unsupportedOperation`. */
    function Handle(f: Filter): (r: Result<Spec>)
      reads this
      ensures !f.DateTimeFilter? ==> r == Err(ClassCast(FilterClassName(f), DATE_TIME_FILTER_CLASS))
      ensures r.Err? ==> r.error.ClassCast? || r.error == NotSupported(DateTimeOperatorName(f.dateTimeOperator))
      ensures r.Ok? ==>
        f.dateTimeOperator.Some? && f.dateTimeOperator.value in operations
        && r.value == DateTimeSpec(operations[f.dateTimeOperator.value], f.field, f.instant)
    {
      if !f.DateTimeFilter? then Err(ClassCast(FilterClassName(f), DATE_TIME_FILTER_CLASS))
      else if f.dateTimeOperator.None? || f.dateTimeOperator.value !in operations then
        Err(NotSupported(DateTimeOperatorName(f.dateTimeOperator)))
      else Ok(DateTimeSpec(operations[f.dateTimeOperator.value], f.field, f.instant))
    }
  }

  const DATE_TIME_FILTER_CLASS := "com.chadtalty.commons.data.query.DateTimeFilter"
  const CONTAINS_FILTER_CLASS := "com.chadtalty.commons.data.query.ContainsFilter"
  const BETWEEN_FILTER_CLASS := "com.chadtalty.commons.data.query.filter.BetweenFilter"

  class ContainsFilterHandler {
    const factory: FilterHandlerFactory<HandlerRef>
    var operations: map<ContainsOperator, ContainsBuilder>

    constructor(factory: FilterHandlerFactory<HandlerRef>)
      ensures this.factory == factory && operations == map[]
    {
      this.factory := factory;
      operations := map[];
    }

    /** `init`: register under CONTAINS, then map IN. */
    method Init()
      modifies this, factory
      ensures operations == CONTAINS_OPERATIONS
      ensures factory.filterHandlerMap == old(factory.filterHandlerMap)[CONTAINS := ContainsRef(this)]
    {
      factory.Register(CONTAINS, ContainsRef(this));
      operations := operations[IN := InBuilder];
      forall k: ContainsOperator ensures k in operations && k in CONTAINS_OPERATIONS && operations[k] == CONTAINS_OPERATIONS[k] {
        match k
        case IN =>
      }
    }

    /** `handle(f)`: cast to a contains filter, then `in` for IN or `unsupportedOperation`. */
    function Handle(f: Filter): (r: Result<Spec>)
      reads this
      ensures !f.ContainsFilter? ==> r == Err(ClassCast(FilterClassName(f), CONTAINS_FILTER_CLASS))
      ensures r.Err? ==> r.error.ClassCast? || r.error == NotSupported(ContainsOperatorName(f.containsOperator))
      ensures r.Ok? ==>
        f.containsOperator.Some? && f.containsOperator.value in operations
        && r.value == InSpec(f.field, f.values)
    {
      if !f.ContainsFilter? then Err(ClassCast(FilterClassName(f), CONTAINS_FILTER_CLASS))
      else if f.containsOperator.None? || f.containsOperator.value !in operations then
        Err(NotSupported(ContainsOperatorName(f.containsOperator)))
      else Ok(InSpec(f.field, f.values))
    }
  }

  class BetweenFilterHandler {
    const factory: FilterHandlerFactory<HandlerRef>

    constructor(factory: FilterHandlerFactory<HandlerRef>)
      ensures this.factory == factory
    {
      this.factory := factory;
    }

    /** `init`: register under BETWEEN. */
    method Init()
      modifies factory
      ensures factory.filterHandlerMap == old(factory.filterHandlerMap)[FilterType.BETWEEN := BetweenRef(this)]
    {
      factory.Register(FilterType.BETWEEN, BetweenRef(this));
    }

    /**
     * `handle(f)`: cast to a between filter, then switch on its operator: a
     * null operator is dereferenced by the switch, BETWEEN builds the range,
     * any other constant is refused.
     */
    function Handle(f: Filter): (r: Result<Spec>)
      ensures !f.BetweenFilter? ==> r == Err(ClassCast(FilterClassName(f), BETWEEN_FILTER_CLASS))
      ensures f.BetweenFilter? && f.betweenOperator.None? ==> r == Err(NullPointer)
      ensures f.BetweenFilter? && f.betweenOperator.Some? && f.betweenOperator.value.UnlistedBetweenOperator? ==>
        r == Err(Runtime("Operation not supported."))
      ensures r.Ok? ==>
        f.BetweenFilter? && f.betweenOperator == Some(BetweenOperator.BETWEEN)
        && r.value == BetweenSpec(f.field, f.startDateTime, f.endDateTime)
    {
      if !f.BetweenFilter? then Err(ClassCast(FilterClassName(f), BETWEEN_FILTER_CLASS))
      else match f.betweenOperator
        case None => Err(NullPointer)
        case Some(op) =>
          if op.UnlistedBetweenOperator? then Err(Runtime("Operation not supported."))
          else Ok(BetweenSpec(f.field, f.startDateTime, f.endDateTime))
    }
  }

  /** `handler.handle(f)` through the interface. */
  function HandleWith(h: HandlerRef, f: Filter): Result<Spec>
    reads h.Target()
  {
    match h
    case BasicRef(b) => b.Handle(f)
    case DateTimeRef(d) => d.Handle(f)
    case ContainsRef(c) => c.Handle(f)
    case BetweenRef(b) => b.Handle(f)
  }

  /**
   * The state the application's startup leaves: each filter type registered
   * to its handler, and every operator table full.
   */
  predicate Started(factory: FilterHandlerFactory<HandlerRef>, basic: BasicFilterHandler,
                    dateTime: DateTimeFilterHandler, contains: ContainsFilterHandler, between: BetweenFilterHandler)
    reads factory, basic, dateTime, contains
  {
    && factory.filterHandlerMap == map[BASIC := BasicRef(basic), DATE_TIME := DateTimeRef(dateTime),
                                       CONTAINS := ContainsRef(contains), FilterType.BETWEEN := BetweenRef(between)]
    && basic.operations == BASIC_OPERATIONS
    && dateTime.operations == DATE_TIME_OPERATIONS
    && contains.operations == CONTAINS_OPERATIONS
  }

  /**
   * The application's startup: one registry, the four handlers built on it
   * and each `init` run once, after which every filter type is registered to
   * its handler and every table is full.
   */
  method Startup() returns (factory: FilterHandlerFactory<HandlerRef>, basic: BasicFilterHandler,
                            dateTime: DateTimeFilterHandler, contains: ContainsFilterHandler,
                            between: BetweenFilterHandler)
    ensures fresh(factory) && fresh(basic) && fresh(dateTime) && fresh(contains) && fresh(between)
    ensures Started(factory, basic, dateTime, contains, between)
  {
    factory := new FilterHandlerFactory<HandlerRef>();
    basic := new BasicFilterHandler(factory);
    dateTime := new DateTimeFilterHandler(factory);
    contains := new ContainsFilterHandler(factory);
    between := new BetweenFilterHandler(factory);
    basic.Init();
    dateTime.Init();
    contains.Init();
    between.Init();
  }

  /** Before `init` every basic, date-time and contains filter is refused as an unsupported operation. */
  lemma BeforeInitEverythingUnsupported(b: BasicFilterHandler, d: DateTimeFilterHandler, c: ContainsFilterHandler, f: Filter)
    requires b.operations == map[] && d.operations == map[] && c.operations == map[]
    ensures f.BasicFilter? ==> b.Handle(f) == Err(NotSupported(BasicOperatorName(f.basicOperator)))
    ensures f.DateTimeFilter? ==> d.Handle(f) == Err(NotSupported(DateTimeOperatorName(f.dateTimeOperator)))
    ensures f.ContainsFilter? ==> c.Handle(f) == Err(NotSupported(ContainsOperatorName(f.containsOperator)))
  {
  }

  /**
   * After `init`, every basic operator yields the builder of the comparison
   * it names, for any field and text: `handle` itself never looks at the
   * field or converts the text. A null operator is refused with "null".
   */
  lemma BasicHandleAfterInit(b: BasicFilterHandler, field: string, op: Option<BasicOperator>, value: string)
    requires b.operations == BASIC_OPERATIONS
    ensures op.Some? ==> b.Handle(BasicFilter(field, op, value)) == Ok(BasicSpec(BasicComparison(op.value), field, value))
    ensures op.None? ==> b.Handle(BasicFilter(field, op, value)) == Err(UnsupportedOperation("Operation not supported: null"))
  {
  }

  /** After `init`, every date-time operator yields the builder of the comparison it names. */
  lemma DateTimeHandleAfterInit(d: DateTimeFilterHandler, field: string, op: Option<DateTimeOperator>, instant: Instant)
    requires d.operations == DATE_TIME_OPERATIONS
    ensures op.Some? ==> d.Handle(DateTimeFilter(field, op, instant)) == Ok(DateTimeSpec(DateTimeComparison(op.value), field, instant))
    ensures op.None? ==> d.Handle(DateTimeFilter(field, op, instant)) == Err(UnsupportedOperation("Operation not supported: null"))
  {
  }

  /** After `init`, IN yields the IN builder over the filter's values. */
  lemma ContainsHandleAfterInit(c: ContainsFilterHandler, field: string, values: seq<string>)
    requires c.operations == CONTAINS_OPERATIONS
    ensures c.Handle(ContainsFilter(field, Some(IN), values)) == Ok(InSpec(field, values))
    ensures c.Handle(ContainsFilter(field, None, values)) == Err(UnsupportedOperation("Operation not supported: null"))
  {
  }

  /**
   * A basic filter handled after `init` admits exactly the rows whose field
   * compares with the converted text as its operator says; in particular
   * GREATER_THAN_OR_EQUAL admits a row exactly when the field is at least
   * the value.
   */
  lemma BasicFilterMeaning(lib: Parsers, b: BasicFilterHandler, field: string, op: BasicOperator, value: string, root: Root, row: Row)
    requires b.operations == BASIC_OPERATIONS
    requires BasicOperations.BasicPredicate(lib, BasicComparison(op), field, value, root).Ok?
    ensures b.Handle(BasicFilter(field, Some(op), value)).Ok?
    ensures Admits(lib, b.Handle(BasicFilter(field, Some(op), value)).value, root, row) <==>
      AttributeSatisfies(row, field, BasicComparison(op), BasicOperations.Operand(lib, field, value, root).value)
  {
    BasicHandleAfterInit(b, field, Some(op), value);
    BasicOperations.BasicPredicateMeaning(lib, BasicComparison(op), field, value, root, row);
  }

  /**
   * A date-time filter handled after `init` admits exactly the rows whose
   * field compares with the converted instant as its operator says: AFTER
   * strictly later, AFTER_OR_EQUAL later or equal, and so on.
   */
  lemma DateTimeFilterMeaning(d: DateTimeFilterHandler, lib: Parsers, field: string, op: DateTimeOperator, instant: Instant, root: Root, row: Row)
    requires d.operations == DATE_TIME_OPERATIONS
    requires DateTimeOperations.DateTimePredicate(DateTimeComparison(op), field, instant, root).Ok?
    ensures d.Handle(DateTimeFilter(field, Some(op), instant)).Ok?
    ensures Admits(lib, d.Handle(DateTimeFilter(field, Some(op), instant)).value, root, row) <==>
      AttributeSatisfies(row, field, DateTimeComparison(op),
        DateTimeOperations.TemporalOperand(DateTimeOperations.TemporalTarget(root.attributes[field]).value, instant))
  {
    DateTimeHandleAfterInit(d, field, Some(op), instant);
    DateTimeOperations.DateTimePredicateMeaning(DateTimeComparison(op), field, instant, root, row);
  }

  /**
   * A contains filter handled after `init` admits exactly the rows whose
   * field is non-null and equal to one of the converted values.
   */
  lemma ContainsFilterMeaning(lib: Parsers, c: ContainsFilterHandler, field: string, values: seq<string>, root: Root, row: Row)
    requires c.operations == CONTAINS_OPERATIONS
    requires ContainsOperations.InPredicate(lib, field, values, root).Ok?
    ensures c.Handle(ContainsFilter(field, Some(IN), values)).Ok?
    ensures var converted := ContainsOperations.ConvertAll(lib, root.attributes[field], values).value;
      Admits(lib, c.Handle(ContainsFilter(field, Some(IN), values)).value, root, row) <==>
        field in row.values && exists i :: 0 <= i < |values| && KeyOf(row.values[field]) == KeyOf(converted[i])
  {
    ContainsHandleAfterInit(c, field, values);
    ContainsOperations.InPredicateMeaning(lib, field, values, root, row);
  }

  /**
   * A between filter on a known field admits exactly the rows whose field
   * holds a temporal value from start to end, both included; `init` is not
   * needed.
   */
  lemma BetweenFilterMeaning(lib: Parsers, b: BetweenFilterHandler, field: string, start: Instant, end: Instant, root: Root, row: Row)
    requires field in root.attributes
    ensures b.Handle(BetweenFilter(field, Some(BetweenOperator.BETWEEN), start, end)).Ok?
    ensures Admits(lib, b.Handle(BetweenFilter(field, Some(BetweenOperator.BETWEEN), start, end)).value, root, row) <==>
      field in row.values && KeyOf(row.values[field]).TimeKey? && start <= KeyOf(row.values[field]).t <= end
  {
    BetweenOperations.BetweenMeaning(field, start, end, root, row);
  }

  /** The between handler has no table: its answer is the same whether or not `init` ran. */
  lemma BetweenHandleIgnoresInit(b1: BetweenFilterHandler, b2: BetweenFilterHandler, f: Filter)
    ensures b1.Handle(f) == b2.Handle(f)
    ensures f.BetweenFilter? && f.betweenOperator == Some(BetweenOperator.BETWEEN) ==>
      b1.Handle(f) == Ok(BetweenSpec(f.field, f.startDateTime, f.endDateTime))
  {
  }
}
