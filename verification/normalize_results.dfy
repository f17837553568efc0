/** Normalising collaborator output into a list of result objects: a list
    keeps its objects, a status or token report stands alone, and a map keyed
    by task id gives its object values. The JSON text itself is not modelled. */
module NormalizeResults {
  import opened Results
  import opened Json

  /** The objects of a list, in order. */
  function Objects(items: seq<Value>): (r: seq<Value>)
    ensures forall i :: 0 <= i < |r| ==> r[i].Object?
    ensures forall v :: v in r <==> v in items && v.Object?
    ensures |r| <= |items|
    decreases |items|
  {
    if |items| == 0 then []
    else
      var prev := items[..|items| - 1];
      var last := items[|items| - 1];
      assert items == prev + [last];
      Objects(prev) + (if last.Object? then [last] else [])
  }

  /** A list made only of objects is kept whole. */
  lemma {:induction false} ObjectsOfObjects(items: seq<Value>)
    requires forall i :: 0 <= i < |items| ==> items[i].Object?
    ensures Objects(items) == items
    decreases |items|
  {
    if |items| > 0 {
      var prev := items[..|items| - 1];
      assert items == prev + [items[|items| - 1]];
      ObjectsOfObjects(prev);
    }
  }

  /** `obj.get("type") in {"status", "tokens"}` */
  predicate IsReport(v: Value) {
    GetOrNull(v, "type") == Str("status") || GetOrNull(v, "type") == Str("tokens")
  }

  /** `normalize`. The values of an object are its fields' values in order.
      Testing a list or dict `type` for membership in a set hashes it, which
      raises TypeError. */
  function Normalize(v: Value): (r: Result<seq<Value>>)
    ensures r.Err? <==> v.Object? && !Hashable(GetOrNull(v, "type"))
    ensures r.Ok? ==> forall i :: 0 <= i < |r.value| ==> r.value[i].Object?
    ensures v.List? ==> r == Ok(Objects(v.items))
    ensures v.Object? && IsReport(v) ==> r == Ok([v])
    ensures v.Object? && Hashable(GetOrNull(v, "type")) && !IsReport(v) ==> r == Ok(Objects(FieldValues(v.fields)))
    ensures !v.List? && !v.Object? ==> r == Ok([])
  {
    match v
    case List(items) => Ok(Objects(items))
    case Object(fields) =>
      var kind := GetOrNull(v, "type");
      if !Hashable(kind) then Err("unhashable type: '" + (if kind.List? then "list" else "dict") + "'")
      else if IsReport(v) then Ok([v])
      else Ok(Objects(FieldValues(fields)))
    case _ => Ok([])
  }

  function FieldValues(fields: seq<(string, Value)>): (vs: seq<Value>)
    ensures |vs| == |fields| && forall i :: 0 <= i < |fields| ==> vs[i] == fields[i].1
  {
    seq(|fields|, i requires 0 <= i < |fields| => fields[i].1)
  }

  /** Normalising is idempotent: the list it writes normalises to itself. */
  lemma NormalizeIdempotent(v: Value)
    requires Normalize(v).Ok?
    ensures Normalize(List(Normalize(v).value)) == Normalize(v)
  {
    ObjectsOfObjects(Normalize(v).value);
  }

  /** Every object of the input list survives, and nothing else comes out. */
  lemma NormalizeListKeepsObjects(items: seq<Value>, o: Value)
    ensures Normalize(List(items)).Ok?
    ensures o in Normalize(List(items)).value <==> o in items && o.Object?
  {
  }
}
