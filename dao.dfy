/**
 * The DAO's query composition: every filter is dispatched to the handler
 * registered for its type and the resulting specifications are AND-folded
 * in list order; every join becomes an equality on the joined attribute,
 * AND-folded likewise; the two parts are AND-ed; the repository returns the
 * stored entities the resulting predicate admits. Sort directives and page
 * parameters become a page request.
 */
module Dao {
  import opened JavaLang
  import opened CriteriaBuilder
  import opened Query
  import opened AbstractFilterHandler
  import opened Specification
  import opened Registry
  import opened FilterHandlers
  import Decimal

  /** The first stored entity with the given id. */
  function Lookup(rows: seq<Row>, id: int): (r: Option<Row>)
    ensures r.Some? ==> r.value in rows && r.value.id == id
    ensures r.None? <==> forall i :: 0 <= i < |rows| ==> rows[i].id != id
  {
    if rows == [] then None
    else if rows[0].id == id then Some(rows[0])
    else Lookup(rows[1..], id)
  }

  /** The stored entities a predicate admits, in repository order. */
  function Select(rows: seq<Row>, p: Option<Pred>): (r: seq<Row>)
    ensures forall row :: row in r <==> row in rows && HoldsOpt(p, row)
    ensures |r| <= |rows|
    ensures p.None? ==> r == rows
  {
    if rows == [] then []
    else if HoldsOpt(p, rows[0]) then [rows[0]] + Select(rows[1..], p)
    else Select(rows[1..], p)
  }

  /** The join specifications of a join list, in order. */
  function JoinSpecifications(joins: seq<JoinSpec>): (r: seq<Spec>)
    ensures |r| == |joins|
    ensures forall i :: 0 <= i < |joins| ==> r[i] == JoinSpecification(joins[i])
  {
    if joins == [] then [] else JoinSpecifications(joins[..|joins| - 1]) + [JoinSpecification(joins[|joins| - 1])]
  }

  /** `applyJoins`: null or empty contributes nothing, otherwise the `and` of the join specifications. */
  function ApplyJoins(joins: Option<seq<JoinSpec>>): (r: Option<Spec>)
    ensures r.None? <==> joins.None? || joins.value == []
  {
    if joins.None? then None else Reduce(JoinSpecifications(joins.value))
  }

  class AbstractDAO {
    var repository: seq<Row>
    const filterHandlerFactory: FilterHandlerFactory<HandlerRef>
    /** The JDK parsers the conversions use. */
    const lib: Parsers
    /** The managed entity type the repository stores. */
    const entityType: Root

    constructor(repository: seq<Row>, filterHandlerFactory: FilterHandlerFactory<HandlerRef>, lib: Parsers, entityType: Root)
      ensures this.repository == repository && this.filterHandlerFactory == filterHandlerFactory
      ensures this.lib == lib && this.entityType == entityType
    {
      this.repository := repository;
      this.filterHandlerFactory := filterHandlerFactory;
      this.lib := lib;
      this.entityType := entityType;
    }

    /** `findById(id)`: the stored entity, or EntityNotFoundException naming the id. */
    function FindById(id: int): (r: Result<Row>)
      reads this
      ensures r.Ok? ==> r.value in repository && r.value.id == id
      ensures r.Err? <==> forall i :: 0 <= i < |repository| ==> repository[i].id != id
      ensures r.Err? ==> r.error == EntityNotFound("Entity not found: " + Decimal.ToDecimalString(id))
    {
      match Lookup(repository, id)
      case Some(row) => Ok(row)
      case None => Err(EntityNotFound("Entity not found: " + Decimal.ToDecimalString(id)))
    }

    /** `createSpecification(filter)`: the registered handler's `handle`; an unregistered type dereferences null. */
    function CreateSpecification(f: Filter): (r: Result<Spec>)
      reads filterHandlerFactory, HandlerObjects(filterHandlerFactory.filterHandlerMap)
      ensures f.Type() !in filterHandlerFactory.filterHandlerMap ==> r == Err(NullPointer)
      ensures f.Type() in filterHandlerFactory.filterHandlerMap ==>
        r == HandleWith(filterHandlerFactory.filterHandlerMap[f.Type()], f)
    {
      match filterHandlerFactory.GetFilterHandler(f.Type())
      case None => Err(NullPointer)
      case Some(h) => HandleWith(h, f)
    }

    /** Every filter's specification, in order; the first filter that fails makes the list fail. */
    function CreateAll(filters: seq<Filter>): (r: Result<seq<Spec>>)
      reads filterHandlerFactory, HandlerObjects(filterHandlerFactory.filterHandlerMap)
      ensures r.Ok? <==> forall i :: 0 <= i < |filters| ==> CreateSpecification(filters[i]).Ok?
      ensures r.Ok? ==> |r.value| == |filters|
      ensures r.Ok? ==> forall i :: 0 <= i < |filters| ==> CreateSpecification(filters[i]) == Ok(r.value[i])
      ensures r.Err? ==>
        exists i :: 0 <= i < |filters| && CreateSpecification(filters[i]) == Err(r.error)
          && (forall j :: 0 <= j < i ==> CreateSpecification(filters[j]).Ok?)
    {
      Collect(Creations(filters))
    }

    /** The outcome of `createSpecification` for each filter, in order. */
    function Creations(filters: seq<Filter>): (rs: seq<Result<Spec>>)
      reads filterHandlerFactory, HandlerObjects(filterHandlerFactory.filterHandlerMap)
      ensures |rs| == |filters|
      ensures forall i :: 0 <= i < |filters| ==> rs[i] == CreateSpecification(filters[i])
    {
      if filters == [] then []
      else Creations(filters[..|filters| - 1]) + [CreateSpecification(filters[|filters| - 1])]
    }

    /** `applyFilters`: null or empty contributes nothing, otherwise the `and` of the filters' specifications. */
    function ApplyFilters(filters: Option<seq<Filter>>): (r: Result<Option<Spec>>)
      reads filterHandlerFactory, HandlerObjects(filterHandlerFactory.filterHandlerMap)
      ensures filters.None? || filters.value == [] ==> r == Ok(None)
      ensures r.Ok? && r.value.None? ==> filters.None? || filters.value == []
      ensures r.Ok? <==>
        filters.None? || forall i :: 0 <= i < |filters.value| ==> CreateSpecification(filters.value[i]).Ok?
      ensures r.Err? ==>
        exists i :: 0 <= i < |filters.value| && CreateSpecification(filters.value[i]) == Err(r.error)
          && (forall j :: 0 <= j < i ==> CreateSpecification(filters.value[j]).Ok?)
    {
      if filters.None? then Ok(None)
      else
        var specs :- CreateAll(filters.value);
        Ok(Reduce(specs))
    }

    /** `buildSearchSpecification`: `where(filters).and(joins)`. */
    function BuildSearchSpecification(criteria: Criteria): (r: Result<Spec>)
      reads filterHandlerFactory, HandlerObjects(filterHandlerFactory.filterHandlerMap)
      ensures r.Ok? <==>
        criteria.filters.None? ||
        forall i :: 0 <= i < |criteria.filters.value| ==> CreateSpecification(criteria.filters.value[i]).Ok?
      ensures r.Err? ==>
        exists i :: 0 <= i < |criteria.filters.value| && CreateSpecification(criteria.filters.value[i]) == Err(r.error)
          && (forall j :: 0 <= j < i ==> CreateSpecification(criteria.filters.value[j]).Ok?)
    {
      var filterPart :- ApplyFilters(criteria.filters);
      Ok(Composed(Where(filterPart), ApplyJoins(criteria.joins)))
    }

    /** `getQueryResult(criteria)`: the stored entities the search specification admits. */
    function GetQueryResult(criteria: Criteria): (r: Result<seq<Row>>)
      reads this, filterHandlerFactory, HandlerObjects(filterHandlerFactory.filterHandlerMap)
      ensures r.Ok? ==> forall row :: row in r.value ==> row in repository
    {
      var spec :- BuildSearchSpecification(criteria);
      var p :- ToPredicate(lib, spec, entityType);
      Ok(Select(repository, p))
    }
  }

  /** Every filter list admits a row exactly when each of its filters' specifications does. */
  lemma FilterPartMeaning(dao: AbstractDAO, filters: Option<seq<Filter>>, row: Row)
    requires dao.ApplyFilters(filters).Ok?
    ensures Admits(dao.lib, Where(dao.ApplyFilters(filters).value), dao.entityType, row) <==>
      filters.None? ||
      forall i :: 0 <= i < |filters.value| ==>
        Admits(dao.lib, dao.CreateSpecification(filters.value[i]).value, dao.entityType, row)
  {
    if filters.Some? && filters.value != [] {
      var specs := dao.CreateAll(filters.value).value;
      ReduceMeaning(dao.lib, specs, dao.entityType, row);
    }
  }

  /** Every join list admits a row exactly when each of its joins' equalities does. */
  lemma JoinPartMeaning(lib: Parsers, root: Root, joins: Option<seq<JoinSpec>>, row: Row)
    ensures (ApplyJoins(joins).Some? ==> Admits(lib, ApplyJoins(joins).value, root, row)) <==>
      joins.None? ||
      forall i :: 0 <= i < |joins.value| ==> Admits(lib, JoinSpecification(joins.value[i]), root, row)
  {
    if joins.Some? && joins.value != [] {
      ReduceMeaning(lib, JoinSpecifications(joins.value), root, row);
    }
  }

  /**
   * The search specification admits a stored entity exactly when it
   * satisfies every filter and every join.
   */
  lemma SearchMeaning(dao: AbstractDAO, criteria: Criteria, row: Row)
    requires dao.GetQueryResult(criteria).Ok?
    ensures row in dao.GetQueryResult(criteria).value <==>
      && row in dao.repository
      && (criteria.filters.Some? ==>
            forall i :: 0 <= i < |criteria.filters.value| ==>
              Admits(dao.lib, dao.CreateSpecification(criteria.filters.value[i]).value, dao.entityType, row))
      && (criteria.joins.Some? ==>
            forall i :: 0 <= i < |criteria.joins.value| ==>
              Admits(dao.lib, JoinSpecification(criteria.joins.value[i]), dao.entityType, row))
  {
    var filterPart := Where(dao.ApplyFilters(criteria.filters).value);
    var joinPart := ApplyJoins(criteria.joins);
    ComposedMeaning(dao.lib, filterPart, joinPart, dao.entityType, row);
    FilterPartMeaning(dao, criteria.filters, row);
    JoinPartMeaning(dao.lib, dao.entityType, criteria.joins, row);
  }

  /**
   * With the registry the application's startup leaves, a basic filter goes
   * to the basic handler and admits exactly the rows whose field compares
   * with the converted text as its operator says.
   */
  lemma StartedBasicFilterMeaning(dao: AbstractDAO, b: BasicFilterHandler, d: DateTimeFilterHandler,
                                  c: ContainsFilterHandler, bt: BetweenFilterHandler,
                                  field: string, op: BasicOperator, value: string, row: Row)
    requires Started(dao.filterHandlerFactory, b, d, c, bt)
    requires BasicOperations.BasicPredicate(dao.lib, BasicComparison(op), field, value, dao.entityType).Ok?
    ensures dao.CreateSpecification(BasicFilter(field, Some(op), value)).Ok?
    ensures Admits(dao.lib, dao.CreateSpecification(BasicFilter(field, Some(op), value)).value, dao.entityType, row) <==>
      AttributeSatisfies(row, field, BasicComparison(op), BasicOperations.Operand(dao.lib, field, value, dao.entityType).value)
  {
    BasicFilterMeaning(dao.lib, b, field, op, value, dao.entityType, row);
  }

  /**
   * With the started registry, a date-time filter goes to the date-time
   * handler and admits exactly the rows whose field compares with the
   * converted instant as its operator says.
   */
  lemma StartedDateTimeFilterMeaning(dao: AbstractDAO, b: BasicFilterHandler, d: DateTimeFilterHandler,
                                     c: ContainsFilterHandler, bt: BetweenFilterHandler,
                                     field: string, op: DateTimeOperator, instant: Instant, row: Row)
    requires Started(dao.filterHandlerFactory, b, d, c, bt)
    requires DateTimeOperations.DateTimePredicate(DateTimeComparison(op), field, instant, dao.entityType).Ok?
    ensures dao.CreateSpecification(DateTimeFilter(field, Some(op), instant)).Ok?
    ensures Admits(dao.lib, dao.CreateSpecification(DateTimeFilter(field, Some(op), instant)).value, dao.entityType, row) <==>
      AttributeSatisfies(row, field, DateTimeComparison(op),
        DateTimeOperations.TemporalOperand(DateTimeOperations.TemporalTarget(dao.entityType.attributes[field]).value, instant))
  {
    DateTimeFilterMeaning(d, dao.lib, field, op, instant, dao.entityType, row);
  }

  /**
   * With the started registry, a contains filter goes to the contains
   * handler and admits exactly the rows whose field equals one of the
   * converted values.
   */
  lemma StartedContainsFilterMeaning(dao: AbstractDAO, b: BasicFilterHandler, d: DateTimeFilterHandler,
                                     c: ContainsFilterHandler, bt: BetweenFilterHandler,
                                     field: string, values: seq<string>, row: Row)
    requires Started(dao.filterHandlerFactory, b, d, c, bt)
    requires ContainsOperations.InPredicate(dao.lib, field, values, dao.entityType).Ok?
    ensures dao.CreateSpecification(ContainsFilter(field, Some(IN), values)).Ok?
    ensures var converted := ContainsOperations.ConvertAll(dao.lib, dao.entityType.attributes[field], values).value;
      Admits(dao.lib, dao.CreateSpecification(ContainsFilter(field, Some(IN), values)).value, dao.entityType, row) <==>
        field in row.values && exists i :: 0 <= i < |values| && KeyOf(row.values[field]) == KeyOf(converted[i])
  {
    ContainsFilterMeaning(dao.lib, c, field, values, dao.entityType, row);
  }

  /**
   * With the started registry, a between filter on a known field admits
   * exactly the rows whose field lies in the closed range.
   */
  lemma StartedBetweenFilterMeaning(dao: AbstractDAO, b: BasicFilterHandler, d: DateTimeFilterHandler,
                                    c: ContainsFilterHandler, bt: BetweenFilterHandler,
                                    field: string, start: Instant, end: Instant, row: Row)
    requires Started(dao.filterHandlerFactory, b, d, c, bt)
    requires field in dao.entityType.attributes
    ensures dao.CreateSpecification(BetweenFilter(field, Some(BetweenOperator.BETWEEN), start, end)).Ok?
    ensures Admits(dao.lib, dao.CreateSpecification(BetweenFilter(field, Some(BetweenOperator.BETWEEN), start, end)).value,
                   dao.entityType, row) <==>
      field in row.values && KeyOf(row.values[field]).TimeKey? && start <= KeyOf(row.values[field]).t <= end
  {
    BetweenFilterMeaning(dao.lib, bt, field, start, end, dao.entityType, row);
  }

  /**
   * Every `handle` runs before any specification meets the metamodel: the
   * first filter whose handler refuses it decides the exception, whatever
   * the specifications of the filters before it or the joins would throw.
   */
  lemma QueryFailsOnFirstUnhandledFilter(dao: AbstractDAO, criteria: Criteria, i: nat)
    requires criteria.filters.Some? && i < |criteria.filters.value|
    requires dao.CreateSpecification(criteria.filters.value[i]).Err?
    requires forall j :: 0 <= j < i ==> dao.CreateSpecification(criteria.filters.value[j]).Ok?
    ensures dao.GetQueryResult(criteria) == Err(dao.CreateSpecification(criteria.filters.value[i]).error)
  {
  }

  /**
   * The filter part yields a predicate exactly when every filter's
   * specification does, and otherwise fails with the first failing one's
   * exception.
   */
  lemma FilterPartFailure(dao: AbstractDAO, filters: Option<seq<Filter>>)
    requires dao.ApplyFilters(filters).Ok?
    ensures var fs := if filters.Some? then filters.value else [];
      ToPredicate(dao.lib, Where(dao.ApplyFilters(filters).value), dao.entityType).Ok? <==>
        forall i :: 0 <= i < |fs| ==> ToPredicate(dao.lib, dao.CreateSpecification(fs[i]).value, dao.entityType).Ok?
    ensures var fs := if filters.Some? then filters.value else [];
      forall i :: (0 <= i < |fs| && ToPredicate(dao.lib, dao.CreateSpecification(fs[i]).value, dao.entityType).Err? &&
        (forall j :: 0 <= j < i ==> ToPredicate(dao.lib, dao.CreateSpecification(fs[j]).value, dao.entityType).Ok?)) ==>
        ToPredicate(dao.lib, Where(dao.ApplyFilters(filters).value), dao.entityType) ==
          ToPredicate(dao.lib, dao.CreateSpecification(fs[i]).value, dao.entityType)
  {
    if filters.Some? && filters.value != [] {
      var specs := dao.CreateAll(filters.value).value;
      var root := dao.entityType;
      ReduceMeaning(dao.lib, specs, root, Row(0, map[], map[]));
      forall k | 0 <= k < |specs| && ToPredicate(dao.lib, specs[k], root).Err? &&
          (forall j :: 0 <= j < k ==> ToPredicate(dao.lib, specs[j], root).Ok?)
        ensures ToPredicate(dao.lib, Reduce(specs).value, root) == ToPredicate(dao.lib, specs[k], root)
      {
        ReduceFirstError(dao.lib, specs, root, k);
      }
    }
  }

  /**
   * The join part yields a predicate exactly when every join does, and
   * otherwise fails with the first failing join's exception.
   */
  lemma JoinPartFailure(lib: Parsers, root: Root, joins: Option<seq<JoinSpec>>)
    ensures var js := if joins.Some? then joins.value else [];
      (ApplyJoins(joins).Some? ==> ToPredicate(lib, ApplyJoins(joins).value, root).Ok?) <==>
        forall k :: 0 <= k < |js| ==> ToPredicate(lib, JoinSpecification(js[k]), root).Ok?
    ensures var js := if joins.Some? then joins.value else [];
      forall k :: (0 <= k < |js| && ToPredicate(lib, JoinSpecification(js[k]), root).Err? &&
        (forall j :: 0 <= j < k ==> ToPredicate(lib, JoinSpecification(js[j]), root).Ok?)) ==>
        ApplyJoins(joins).Some? && ToPredicate(lib, ApplyJoins(joins).value, root) == ToPredicate(lib, JoinSpecification(js[k]), root)
  {
    if joins.Some? && joins.value != [] {
      var specs := JoinSpecifications(joins.value);
      ReduceMeaning(lib, specs, root, Row(0, map[], map[]));
      forall k | 0 <= k < |specs| && ToPredicate(lib, specs[k], root).Err? &&
          (forall j :: 0 <= j < k ==> ToPredicate(lib, specs[j], root).Ok?)
        ensures ToPredicate(lib, Reduce(specs).value, root) == ToPredicate(lib, specs[k], root)
      {
        ReduceFirstError(lib, specs, root, k);
      }
    }
  }

  /**
   * Once every filter is handled, the query fails exactly when a filter's
   * specification or a join fails to become a predicate: the first failing
   * filter's exception comes first, then the first failing join's. None of
   * this depends on the stored rows, so every failure surfaces before any
   * row is read.
   */
  lemma QueryLazyFailure(dao: AbstractDAO, criteria: Criteria)
    requires criteria.filters.None? ||
      forall i :: 0 <= i < |criteria.filters.value| ==> dao.CreateSpecification(criteria.filters.value[i]).Ok?
    ensures var fs := if criteria.filters.Some? then criteria.filters.value else [];
      var js := if criteria.joins.Some? then criteria.joins.value else [];
      dao.GetQueryResult(criteria).Ok? <==>
        && (forall i :: 0 <= i < |fs| ==>
              ToPredicate(dao.lib, dao.CreateSpecification(fs[i]).value, dao.entityType).Ok?)
        && (forall k :: 0 <= k < |js| ==> ToPredicate(dao.lib, JoinSpecification(js[k]), dao.entityType).Ok?)
    ensures var fs := if criteria.filters.Some? then criteria.filters.value else [];
      forall i :: (0 <= i < |fs| && ToPredicate(dao.lib, dao.CreateSpecification(fs[i]).value, dao.entityType).Err? &&
        (forall j :: 0 <= j < i ==> ToPredicate(dao.lib, dao.CreateSpecification(fs[j]).value, dao.entityType).Ok?)) ==>
        dao.GetQueryResult(criteria) ==
          Err(ToPredicate(dao.lib, dao.CreateSpecification(fs[i]).value, dao.entityType).error)
    ensures var fs := if criteria.filters.Some? then criteria.filters.value else [];
      var js := if criteria.joins.Some? then criteria.joins.value else [];
      (forall i :: 0 <= i < |fs| ==> ToPredicate(dao.lib, dao.CreateSpecification(fs[i]).value, dao.entityType).Ok?) ==>
      forall k :: (0 <= k < |js| && ToPredicate(dao.lib, JoinSpecification(js[k]), dao.entityType).Err? &&
        (forall j :: 0 <= j < k ==> ToPredicate(dao.lib, JoinSpecification(js[j]), dao.entityType).Ok?)) ==>
        dao.GetQueryResult(criteria) == Err(ToPredicate(dao.lib, JoinSpecification(js[k]), dao.entityType).error)
  {
    var filterPart := Where(dao.ApplyFilters(criteria.filters).value);
    var joinPart := ApplyJoins(criteria.joins);
    assert dao.BuildSearchSpecification(criteria) == Ok(Composed(filterPart, joinPart));
    ComposedMeaning(dao.lib, filterPart, joinPart, dao.entityType, Row(0, map[], map[]));
    FilterPartFailure(dao, criteria.filters);
    JoinPartFailure(dao.lib, dao.entityType, criteria.joins);
  }

  /** Criteria with no filters and no joins, null or empty, return the whole repository, as `findAll` does. */
  lemma EmptyCriteriaReturnsAll(dao: AbstractDAO, filters: Option<seq<Filter>>, joins: Option<seq<JoinSpec>>)
    requires filters.None? || filters.value == []
    requires joins.None? || joins.value == []
    ensures dao.GetQueryResult(Criteria(filters, joins)) == Ok(dao.repository)
  {
    var spec := dao.BuildSearchSpecification(Criteria(filters, joins)).value;
    assert spec == Composed(Unrestricted, None);
    UnrestrictedAdmitsAll(dao.lib, spec, dao.entityType, Row(0, map[], map[]));
  }

  /** A filter whose type has no registered handler makes the whole search fail with a NullPointerException. */
  lemma UnregisteredFilterFails(dao: AbstractDAO, f: Filter, joins: Option<seq<JoinSpec>>)
    requires f.Type() !in dao.filterHandlerFactory.filterHandlerMap
    ensures dao.BuildSearchSpecification(Criteria(Some([f]), joins)) == Err(NullPointer)
    ensures dao.GetQueryResult(Criteria(Some([f]), joins)) == Err(NullPointer)
  {
    assert [f][..0] == [];
  }

  /**
   * A join compares the joined attribute with the filter's raw text for
   * equality, whatever the filter's operator; it admits a row exactly when
   * some joined entity holds that text.
   */
  lemma JoinIsRawEquality(lib: Parsers, root: Root, join: string, field: string, op: Option<BasicOperator>, value: string, row: Row)
    requires join in root.relations && field in root.relations[join]
    ensures ToPredicate(lib, JoinSpecification(JoinSpec(join, BasicFilter(field, op, value))), root)
      == Ok(Some(Equal(JoinedAttribute(join, field), StrValue(value))))
    ensures Admits(lib, JoinSpecification(JoinSpec(join, BasicFilter(field, op, value))), root, row) <==>
      join in row.joined && exists c :: c in row.joined[join] && field in c && KeyOf(c[field]) == TextKey(value)
  {
    var p := Equal(JoinedAttribute(join, field), StrValue(value));
    if join in row.joined && exists c :: c in row.joined[join] && field in c && KeyOf(c[field]) == TextKey(value) {
      var c :| c in row.joined[join] && field in c && KeyOf(c[field]) == TextKey(value);
      assert c[field] in PathValues(JoinedAttribute(join, field), row);
      assert Holds(p, row);
    }
  }

  // -- Page requests ----------------------------------------------------------------------------

  datatype Direction = ASC | DESC

  datatype Order = Order(direction: Direction, property: string)

  /** `Sort.unsorted()` or `Sort.by(orders)`. */
  datatype Sort = Unsorted | By(orders: seq<Order>)

  datatype PageRequest = PageRequest(page: int, size: int, sort: Sort)

  /**
   * `Character.isWhitespace`: the ASCII separators and controls, and the
   * Unicode space, line and paragraph separators other than the no-break
   * spaces.
   */
  predicate IsWhitespace(c: char) {
    || c == ' ' || c == '\t' || c == '\n' || c == '\U{B}' || c == '\U{C}' || c == '\r'
    || ('\U{1C}' <= c <= '\U{1F}')
    || c == '\U{1680}' || ('\U{2000}' <= c <= '\U{2006}') || ('\U{2008}' <= c <= '\U{200A}')
    || c == '\U{2028}' || c == '\U{2029}' || c == '\U{205F}' || c == '\U{3000}'
  }

  /** `StringUtils.hasText`: some character that is not whitespace. */
  predicate HasText(s: string) {
    exists i :: 0 <= i < |s| && !IsWhitespace(s[i])
  }

  const PROPERTY_REQUIRED := "Property must not be null or empty"

  /** `Sort.Order.asc(property)` and `Sort.Order.desc(property)`: a property without text is refused. */
  function OrderOf(direction: Direction, property: string): (r: Result<Order>)
    ensures r.Ok? <==> HasText(property)
    ensures r.Ok? ==> r.value.direction == direction && r.value.property == property
    ensures r.Err? ==> r.error == IllegalArgument(PROPERTY_REQUIRED)
  {
    if HasText(property) then Ok(Order(direction, property)) else Err(IllegalArgument(PROPERTY_REQUIRED))
  }

  /** Each property, in order, as an order of the given direction; the first property without text stops the stream. */
  function OrdersOf(direction: Direction, properties: seq<string>): (r: Result<seq<Order>>)
    ensures r.Ok? <==> forall i :: 0 <= i < |properties| ==> HasText(properties[i])
    ensures r.Ok? ==> |r.value| == |properties|
    ensures r.Ok? ==> forall i :: 0 <= i < |properties| ==> r.value[i] == Order(direction, properties[i])
    ensures r.Err? ==> r.error == IllegalArgument(PROPERTY_REQUIRED)
  {
    var results := seq(|properties|, i requires 0 <= i < |properties| => OrderOf(direction, properties[i]));
    assert forall i :: 0 <= i < |properties| ==> results[i] == OrderOf(direction, properties[i]);
    Collect(results)
  }

  /** The ascending keys of a sort directive, a null directive or list counting as empty. */
  function AscendingKeys(sort: Option<SortSpec>): seq<string> {
    if sort.Some? && sort.value.ascending.Some? then sort.value.ascending.value else []
  }

  function DescendingKeys(sort: Option<SortSpec>): seq<string> {
    if sort.Some? && sort.value.descending.Some? then sort.value.descending.value else []
  }

  /** Every sort key, ascending and descending, has text. */
  predicate KeysHaveText(sort: Option<SortSpec>) {
    && (forall i :: 0 <= i < |AscendingKeys(sort)| ==> HasText(AscendingKeys(sort)[i]))
    && (forall i :: 0 <= i < |DescendingKeys(sort)| ==> HasText(DescendingKeys(sort)[i]))
  }

  /** The concatenated stream of orders: every ascending key as ASC, then every descending key as DESC. */
  function SortOrders(sort: Option<SortSpec>): Result<seq<Order>> {
    var asc :- OrdersOf(ASC, AscendingKeys(sort));
    var desc :- OrdersOf(DESC, DescendingKeys(sort));
    Ok(asc + desc)
  }

  /**
   * `getPageRequest`: the orders, unsorted when there are none, then
   * `PageRequest.of(page, size, sort)`, which refuses a negative page and a
   * size below one. The orders are built first, so a sort key without text
   * is refused before the page parameters are looked at.
   */
  function GetPageRequest(criteria: PageableCriteria): (r: Result<PageRequest>)
    ensures r.Ok? <==> KeysHaveText(criteria.sort) && criteria.page >= 0 && criteria.size >= 1
    ensures !KeysHaveText(criteria.sort) ==> r == Err(IllegalArgument(PROPERTY_REQUIRED))
    ensures KeysHaveText(criteria.sort) && criteria.page < 0 ==>
      r == Err(IllegalArgument("Page index must not be less than zero"))
    ensures KeysHaveText(criteria.sort) && criteria.page >= 0 && criteria.size < 1 ==>
      r == Err(IllegalArgument("Page size must not be less than one"))
    ensures r.Ok? ==> r.value.page == criteria.page && r.value.size == criteria.size
  {
    var orders :- SortOrders(criteria.sort);
    var sort := if |orders| == 0 then Unsorted else By(orders);
    if criteria.page < 0 then Err(IllegalArgument("Page index must not be less than zero"))
    else if criteria.size < 1 then Err(IllegalArgument("Page size must not be less than one"))
    else Ok(PageRequest(criteria.page, criteria.size, sort))
  }

  /**
   * The request sorts by every ascending key as ASC in the given order, then
   * every descending key as DESC in the given order, |asc| + |desc| orders
   * in all; with no keys at all (or a null directive) it is unsorted.
   */
  lemma PageRequestSortOrder(criteria: PageableCriteria)
    requires GetPageRequest(criteria).Ok?
    ensures var asc := AscendingKeys(criteria.sort);
      var desc := DescendingKeys(criteria.sort);
      var sort := GetPageRequest(criteria).value.sort;
      && (asc == [] && desc == [] <==> sort == Unsorted)
      && (sort.By? ==>
            && |sort.orders| == |asc| + |desc|
            && (forall i :: 0 <= i < |asc| ==> sort.orders[i] == Order(ASC, asc[i]))
            && (forall i :: 0 <= i < |desc| ==> sort.orders[|asc| + i] == Order(DESC, desc[i])))
  {
  }

  /** A null sort directive gives an unsorted request. */
  lemma NullSortIsUnsorted(criteria: Criteria, page: int, size: int)
    requires page >= 0 && size >= 1
    ensures GetPageRequest(PageableCriteria(criteria, page, size, None)) == Ok(PageRequest(page, size, Unsorted))
  {
  }

  /** A blank sort key is refused by `Sort.Order`, even with valid page parameters. */
  lemma BlankSortKeyRefused(criteria: Criteria)
    ensures GetPageRequest(PageableCriteria(criteria, 0, 10, Some(SortSpec(Some([""]), None))))
      == Err(IllegalArgument(PROPERTY_REQUIRED))
    ensures GetPageRequest(PageableCriteria(criteria, 0, 10, Some(SortSpec(Some(["name"]), Some([" \t"])))))
      == Err(IllegalArgument(PROPERTY_REQUIRED))
  {
    assert !HasText(" \t");
  }
}
