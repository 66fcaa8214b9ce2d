/**
 * Spring Data's `Specification`, defunctionalized: one constructor per
 * lambda the handlers and the DAO return, and `Composed` for the
 * specification `and` builds. `ToPredicate` is `Specification.toPredicate`:
 * it is only here, when a specification meets the entity's metamodel, that
 * fields are looked up and values converted, so the failures of the lambdas
 * surface here and not when the specification is built. A `None` predicate
 * is the null predicate, which restricts nothing.
 */
module Specification {
  import opened JavaLang
  import opened CriteriaBuilder
  import opened Query
  import opened AbstractFilterHandler
  import BasicOperations
  import DateTimeOperations
  import ContainsOperations
  import BetweenOperations

  datatype Spec =
    | Unrestricted                                                  // the lambda `Specification.where(null)` returns
    | BasicSpec(comparison: Comparison, field: string, value: string)
    | DateTimeSpec(comparison: Comparison, field: string, instant: Instant)
    | InSpec(field: string, values: seq<string>)
    | BetweenSpec(field: string, start: Instant, end: Instant)
    | JoinSpecification(joinSpec: JoinSpec)
    | Composed(lhs: Spec, rhs: Option<Spec>)                        // `lhs.and(rhs)`, `rhs` possibly null

  const BASIC_FILTER_CLASS := "com.chadtalty.commons.data.query.BasicFilter"

  /**
   * The join lambda: join the relation, cast the join's filter to a basic
   * filter, and compare the joined attribute with the filter's raw text.
   */
  function JoinPredicate(js: JoinSpec, root: Root): (r: Result<Pred>)
    ensures r.Ok? <==> js.join in root.relations && js.filter.BasicFilter? && js.filter.field in root.relations[js.join]
    ensures r.Ok? ==> r.value == Equal(JoinedAttribute(js.join, js.filter.field), StrValue(js.filter.value))
    ensures js.join in root.relations && !js.filter.BasicFilter? ==>
      r == Err(ClassCast(FilterClassName(js.filter), BASIC_FILTER_CLASS))
  {
    if js.join !in root.relations then Err(UnknownAttribute(js.join))
    else if !js.filter.BasicFilter? then Err(ClassCast(FilterClassName(js.filter), BASIC_FILTER_CLASS))
    else if js.filter.field !in root.relations[js.join] then Err(UnknownAttribute(js.filter.field))
    else Ok(Equal(JoinedAttribute(js.join, js.filter.field), StrValue(js.filter.value)))
  }

  function Lift(r: Result<Pred>): (o: Result<Option<Pred>>)
    ensures o.Ok? <==> r.Ok?
    ensures o.Ok? ==> o.value == Some(r.value)
    ensures o.Err? ==> o.error == r.error
  {
    match r
    case Ok(p) => Ok(Some(p))
    case Err(e) => Err(e)
  }

  /** Spring's composition: the left predicate, then the right; a null side yields the other, else their conjunction. */
  function Combine(lp: Option<Pred>, rp: Option<Pred>): (p: Option<Pred>)
    ensures forall row :: HoldsOpt(p, row) <==> HoldsOpt(lp, row) && HoldsOpt(rp, row)
  {
    if lp.None? then rp
    else if rp.None? then lp
    else Some(And(lp.value, rp.value))
  }

  /** `spec.toPredicate(root, query, cb)`. */
  function ToPredicate(lib: Parsers, s: Spec, root: Root): Result<Option<Pred>>
  {
    match s
    case Unrestricted => Ok(None)
    case BasicSpec(c, field, value) => Lift(BasicOperations.BasicPredicate(lib, c, field, value, root))
    case DateTimeSpec(c, field, instant) => Lift(DateTimeOperations.DateTimePredicate(c, field, instant, root))
    case InSpec(field, values) => Lift(ContainsOperations.InPredicate(lib, field, values, root))
    case BetweenSpec(field, start, end) => Lift(BetweenOperations.BetweenPredicate(field, start, end, root))
    case JoinSpecification(js) => Lift(JoinPredicate(js, root))
    case Composed(l, r) =>
      var lp :- ToPredicate(lib, l, root);
      var rp :- if r.None? then Ok(None) else ToPredicate(lib, r.value, root);
      Ok(Combine(lp, rp))
  }

  /** A specification admits a row: it yields a predicate and the row satisfies it (or it is null). */
  predicate Admits(lib: Parsers, s: Spec, root: Root, row: Row) {
    ToPredicate(lib, s, root).Ok? && HoldsOpt(ToPredicate(lib, s, root).value, row)
  }

  /** `Specification.where(spec)`: the specification itself, or the unrestricted one for null. */
  function Where(s: Option<Spec>): Spec {
    if s.None? then Unrestricted else s.value
  }

  /**
   * `lhs.and(rhs)` yields a predicate exactly when both sides do (the left
   * side's failure coming first), and admits exactly the rows both admit.
   */
  lemma ComposedMeaning(lib: Parsers, l: Spec, r: Option<Spec>, root: Root, row: Row)
    ensures ToPredicate(lib, Composed(l, r), root).Ok? <==>
      ToPredicate(lib, l, root).Ok? && (r.Some? ==> ToPredicate(lib, r.value, root).Ok?)
    ensures ToPredicate(lib, l, root).Err? ==> ToPredicate(lib, Composed(l, r), root) == ToPredicate(lib, l, root)
    ensures ToPredicate(lib, l, root).Ok? && r.Some? && ToPredicate(lib, r.value, root).Err? ==>
      ToPredicate(lib, Composed(l, r), root) == ToPredicate(lib, r.value, root)
    ensures Admits(lib, Composed(l, r), root, row) <==>
      Admits(lib, l, root, row) && (r.Some? ==> Admits(lib, r.value, root, row))
  {
  }

  /** `where(null)` admits every row, and a null right side adds nothing. */
  lemma UnrestrictedAdmitsAll(lib: Parsers, s: Spec, root: Root, row: Row)
    ensures Admits(lib, Where(None), root, row)
    ensures ToPredicate(lib, Composed(Unrestricted, None), root) == Ok(None)
    ensures ToPredicate(lib, Composed(s, None), root) == ToPredicate(lib, s, root)
  {
  }

  /**
   * `stream.reduce(Specification::and)`: the left fold of `and` over a
   * non-empty list, ((s0 and s1) and s2) ..., and nothing for an empty one.
   */
  function Reduce(specs: seq<Spec>): (r: Option<Spec>)
    ensures r.None? <==> specs == []
  {
    if specs == [] then None
    else if |specs| == 1 then Some(specs[0])
    else Some(Composed(Reduce(specs[..|specs| - 1]).value, Some(specs[|specs| - 1])))
  }

  /**
   * The fold of `and` yields a predicate exactly when every specification
   * does, fails with the first failure in list order otherwise, and admits
   * exactly the rows every specification admits.
   */
  lemma ReduceMeaning(lib: Parsers, specs: seq<Spec>, root: Root, row: Row)
    requires specs != []
    ensures ToPredicate(lib, Reduce(specs).value, root).Ok? <==>
      forall i :: 0 <= i < |specs| ==> ToPredicate(lib, specs[i], root).Ok?
    ensures ToPredicate(lib, Reduce(specs).value, root).Err? ==>
      exists i :: 0 <= i < |specs| && ToPredicate(lib, specs[i], root) == ToPredicate(lib, Reduce(specs).value, root)
        && (forall j :: 0 <= j < i ==> ToPredicate(lib, specs[j], root).Ok?)
    ensures Admits(lib, Reduce(specs).value, root, row) <==>
      forall i :: 0 <= i < |specs| ==> Admits(lib, specs[i], root, row)
  {
    ReduceSucceeds(lib, specs, root);
    ReduceFailure(lib, specs, root);
    ReduceAdmits(lib, specs, root, row);
  }

  lemma {:induction false} ReduceSucceeds(lib: Parsers, specs: seq<Spec>, root: Root)
    requires specs != []
    ensures ToPredicate(lib, Reduce(specs).value, root).Ok? <==>
      forall i :: 0 <= i < |specs| ==> ToPredicate(lib, specs[i], root).Ok?
  {
    if |specs| > 1 {
      var init := specs[..|specs| - 1];
      assert Reduce(specs).value == Composed(Reduce(init).value, Some(specs[|specs| - 1]));
      ReduceSucceeds(lib, init, root);
      ComposedMeaning(lib, Reduce(init).value, Some(specs[|specs| - 1]), root, Row(0, map[], map[]));
      assert forall i :: 0 <= i < |init| ==> init[i] == specs[i];
    }
  }

  lemma {:induction false} ReduceFailure(lib: Parsers, specs: seq<Spec>, root: Root)
    requires specs != []
    ensures ToPredicate(lib, Reduce(specs).value, root).Err? ==>
      exists i :: 0 <= i < |specs| && ToPredicate(lib, specs[i], root) == ToPredicate(lib, Reduce(specs).value, root)
        && (forall j :: 0 <= j < i ==> ToPredicate(lib, specs[j], root).Ok?)
  {
    var whole := ToPredicate(lib, Reduce(specs).value, root);
    if |specs| > 1 && whole.Err? {
      var init := specs[..|specs| - 1];
      var last := specs[|specs| - 1];
      assert Reduce(specs).value == Composed(Reduce(init).value, Some(last));
      ComposedMeaning(lib, Reduce(init).value, Some(last), root, Row(0, map[], map[]));
      assert forall i :: 0 <= i < |init| ==> init[i] == specs[i];
      if ToPredicate(lib, Reduce(init).value, root).Err? {
        ReduceFailure(lib, init, root);
        var i :| 0 <= i < |init| && ToPredicate(lib, init[i], root) == ToPredicate(lib, Reduce(init).value, root)
          && (forall j :: 0 <= j < i ==> ToPredicate(lib, init[j], root).Ok?);
        assert ToPredicate(lib, specs[i], root) == whole;
      } else {
        ReduceSucceeds(lib, init, root);
        assert ToPredicate(lib, last, root) == whole;
      }
    }
  }

  lemma {:induction false} ReduceAdmits(lib: Parsers, specs: seq<Spec>, root: Root, row: Row)
    requires specs != []
    ensures Admits(lib, Reduce(specs).value, root, row) <==>
      forall i :: 0 <= i < |specs| ==> Admits(lib, specs[i], root, row)
  {
    if |specs| > 1 {
      var init := specs[..|specs| - 1];
      assert Reduce(specs).value == Composed(Reduce(init).value, Some(specs[|specs| - 1]));
      ReduceAdmits(lib, init, root, row);
      ComposedMeaning(lib, Reduce(init).value, Some(specs[|specs| - 1]), root, row);
      assert forall i :: 0 <= i < |init| ==> init[i] == specs[i];
    }
  }

  /** A reduced chain fails with the exception of its first failing specification. */
  lemma ReduceFirstError(lib: Parsers, specs: seq<Spec>, root: Root, k: nat)
    requires k < |specs| && ToPredicate(lib, specs[k], root).Err?
    requires forall j :: 0 <= j < k ==> ToPredicate(lib, specs[j], root).Ok?
    ensures ToPredicate(lib, Reduce(specs).value, root) == ToPredicate(lib, specs[k], root)
  {
    ReduceSucceeds(lib, specs, root);
    ReduceFailure(lib, specs, root);
    var i :| 0 <= i < |specs| && ToPredicate(lib, specs[i], root) == ToPredicate(lib, Reduce(specs).value, root)
      && (forall j :: 0 <= j < i ==> ToPredicate(lib, specs[j], root).Ok?);
    assert ToPredicate(lib, specs[i], root).Err?;
  }
}
