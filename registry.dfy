/**
 * The handler registry: a mutable map from filter type to handler, filled
 * by each handler's `init` and read when a filter is dispatched. It is
 * generic in the handler type, as the source is.
 */
module Registry {
  import opened JavaLang
  import opened Query

  class FilterHandlerFactory<H> {
    var filterHandlerMap: map<FilterType, H>

    /** A new factory has no handlers. */
    constructor()
      ensures filterHandlerMap == map[]
    {
      filterHandlerMap := map[];
    }

    /** `register(type, handler)`: `put`, replacing any handler already registered for the type. */
    method Register(t: FilterType, handler: H)
      modifies this
      ensures filterHandlerMap == old(filterHandlerMap)[t := handler]
      ensures GetFilterHandler(t) == Some(handler)
      ensures forall u :: u != t ==> GetFilterHandler(u) == old(GetFilterHandler(u))
    {
      filterHandlerMap := filterHandlerMap[t := handler];
    }

    /** `getFilterHandler(type)`: the registered handler, or None (a null) for a type never registered. */
    function GetFilterHandler(t: FilterType): (r: Option<H>)
      reads this
      ensures r.Some? <==> t in filterHandlerMap
      ensures r.Some? ==> r.value == filterHandlerMap[t]
    {
      if t in filterHandlerMap then Some(filterHandlerMap[t]) else None
    }
  }

  /** Registering the same type twice keeps only the second handler; the other types are untouched. */
  method RegisterTwice<H>(factory: FilterHandlerFactory<H>, t: FilterType, first: H, second: H)
    modifies factory
    ensures factory.GetFilterHandler(t) == Some(second)
    ensures forall u :: u != t ==> factory.GetFilterHandler(u) == old(factory.GetFilterHandler(u))
  {
    factory.Register(t, first);
    factory.Register(t, second);
  }

  /** A lookup in a fresh factory finds nothing, and a lookup changes nothing. */
  method LookupInFreshFactory<H>(t: FilterType) returns (r: Option<H>)
    ensures r == None
  {
    var factory := new FilterHandlerFactory<H>();
    r := factory.GetFilterHandler(t);
  }
}
