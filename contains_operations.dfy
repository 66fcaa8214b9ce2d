/**
 * The IN builder of the contains filter handler: the field's declared class
 * is read once, every wire value is converted to it in list order and added
 * to the IN predicate one at a time.
 */
module ContainsOperations {
  import opened JavaLang
  import opened CriteriaBuilder
  import opened AbstractFilterHandler

  /** The conversion of each value to `t`, one result per value, in order. */
  function Conversions(lib: Parsers, t: JavaType, values: seq<string>): (rs: seq<Result<Value>>)
    ensures |rs| == |values|
    ensures forall i :: 0 <= i < |values| ==> rs[i] == CastString(lib, t, values[i])
  {
    seq(|values|, i requires 0 <= i < |values| => CastString(lib, t, values[i]))
  }

  /**
   * Every value converted to `t`, in order; the first value that fails to
   * convert makes the whole list fail with its error.
   */
  function ConvertAll(lib: Parsers, t: JavaType, values: seq<string>): (r: Result<seq<Value>>)
    ensures r.Ok? <==> forall i :: 0 <= i < |values| ==> CastString(lib, t, values[i]).Ok?
    ensures r.Ok? ==> |r.value| == |values|
    ensures r.Ok? ==> forall i :: 0 <= i < |values| ==> CastString(lib, t, values[i]) == Ok(r.value[i])
    ensures r.Err? ==>
      exists i :: 0 <= i < |values| && CastString(lib, t, values[i]) == Err(r.error)
        && (forall j :: 0 <= j < i ==> CastString(lib, t, values[j]).Ok?)
  {
    Collect(Conversions(lib, t, values))
  }

  /** The predicate the IN builder produces: the field, and the converted values in list order. */
  function InPredicate(lib: Parsers, field: string, values: seq<string>, root: Root): (r: Result<Pred>)
    ensures field !in root.attributes ==> r == Err(UnknownAttribute(field))
  {
    var fieldType :- AttributeType(root, field);
    var converted :- ConvertAll(lib, fieldType, values);
    Ok(In(Attribute(field), converted))
  }

  /** The builder's loop: the accumulated IN predicate gains one converted value per iteration. */
  method BuildIn(lib: Parsers, field: string, values: seq<string>, root: Root) returns (r: Result<Pred>)
    ensures r == InPredicate(lib, field, values, root)
  {
    var path := AttributeType(root, field);
    if path.Err? {
      return Err(path.error);
    }
    var javaType := path.value;
    var inValues: seq<Value> := [];
    ghost var rs := Conversions(lib, javaType, values);
    var i := 0;
    while i < |values|
      invariant 0 <= i <= |values|
      invariant Collect(rs[..i]) == Ok(inValues)
    {
      var v := CastString(lib, javaType, values[i]);
      CollectStep(rs, i);
      if v.Err? {
        CollectKeepsError(rs, i + 1);
        return Err(v.error);
      }
      inValues := inValues + [v.value];
      i := i + 1;
    }
    assert rs[..i] == rs;
    return Ok(In(Attribute(field), inValues));
  }

  /**
   * What an IN predicate selects: a row whose field is non-null and equal to
   * one of the converted values.
   */
  lemma InPredicateMeaning(lib: Parsers, field: string, values: seq<string>, root: Root, row: Row)
    requires InPredicate(lib, field, values, root).Ok?
    ensures var converted := ConvertAll(lib, root.attributes[field], values).value;
      Holds(InPredicate(lib, field, values, root).value, row) <==>
        field in row.values && exists i :: 0 <= i < |values| && KeyOf(row.values[field]) == KeyOf(converted[i])
  {
    var converted := ConvertAll(lib, root.attributes[field], values).value;
    var p := InPredicate(lib, field, values, root).value;
    assert p == In(Attribute(field), converted);
    if field in row.values {
      var a := row.values[field];
      assert PathValues(Attribute(field), row) == {a};
      if exists i :: 0 <= i < |values| && KeyOf(a) == KeyOf(converted[i]) {
        var i :| 0 <= i < |values| && KeyOf(a) == KeyOf(converted[i]);
        assert a in PathValues(Attribute(field), row) && 0 <= i < |converted| && KeyOf(a) == KeyOf(converted[i]);
        assert Holds(p, row);
        assert exists i :: 0 <= i < |values| && KeyOf(row.values[field]) == KeyOf(converted[i]);
        assert Holds(InPredicate(lib, field, values, root).value, row);
        assert converted == ConvertAll(lib, root.attributes[field], values).value;
      } else {
        assert !Holds(p, row);
      }
    } else {
      assert PathValues(Attribute(field), row) == {};
    }
  }

  /** The IN list holds one entry per wire value, duplicates kept, each the value converted with the field's one class. */
  lemma InValuesOnePerInput(lib: Parsers, field: string, values: seq<string>, root: Root)
    requires InPredicate(lib, field, values, root).Ok?
    ensures var p := InPredicate(lib, field, values, root).value;
      && p.In? && p.x == Attribute(field)
      && |p.values| == |values|
      && forall i :: 0 <= i < |values| ==> CastString(lib, root.attributes[field], values[i]) == Ok(p.values[i])
  {
  }

  /** An empty value list gives an IN with no values, which no row satisfies. */
  lemma EmptyInMatchesNothing(lib: Parsers, field: string, root: Root, row: Row)
    requires field in root.attributes
    ensures InPredicate(lib, field, [], root) == Ok(In(Attribute(field), []))
    ensures !Holds(InPredicate(lib, field, [], root).value, row)
  {
  }

  /** One value that fails to convert makes the whole IN fail, with the first such failure. */
  lemma InFailsOnAnyBadValue(lib: Parsers, field: string, values: seq<string>, root: Root, k: nat)
    requires field in root.attributes
    requires k < |values| && CastString(lib, root.attributes[field], values[k]).Err?
    ensures InPredicate(lib, field, values, root).Err?
    ensures exists i :: 0 <= i <= k && CastString(lib, root.attributes[field], values[i]) == Err(InPredicate(lib, field, values, root).error)
  {
    var r := ConvertAll(lib, root.attributes[field], values);
    assert r.Err?;
    var i :| 0 <= i < |values| && CastString(lib, root.attributes[field], values[i]) == Err(r.error)
      && forall j :: 0 <= j < i ==> CastString(lib, root.attributes[field], values[j]).Ok?;
    assert i <= k;
  }
}
