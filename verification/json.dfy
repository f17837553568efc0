/** JSON-like values as the scripts see them after `json.loads` or YAML
    loading: Python's `None`, `bool`, `int`, `str`, `list` and `dict`. Objects
    keep their fields in order. A Python dict never holds a key twice (a
    duplicate key in JSON text is overwritten by the last one), so an `Object`
    stands for a dict only when its keys are distinct; lookups find the first
    field with the key, which on such an object is the only one. */
module Json {
  import opened Results
  import PyStr

  datatype Value =
    | Null
    | Bool(b: bool)
    | Int(i: int)
    | Str(s: string)
    | List(items: seq<Value>)
    | Object(fields: seq<(string, Value)>)

  /** Python truthiness: `None`, `False`, `0`, `""`, `[]` and `{}` are false. */
  predicate Truthy(v: Value) {
    match v
    case Null => false
    case Bool(b) => b
    case Int(i) => i != 0
    case Str(s) => |s| > 0
    case List(items) => |items| > 0
    case Object(fields) => |fields| > 0
  }

  /** Lists and dicts cannot be dict keys or set members: hashing them raises
      TypeError. */
  predicate Hashable(v: Value) {
    !v.List? && !v.Object?
  }

  predicate HasField(fields: seq<(string, Value)>, key: string) {
    exists i :: 0 <= i < |fields| && fields[i].0 == key
  }

  function Lookup(fields: seq<(string, Value)>, key: string): (r: Option<Value>)
    ensures r.Some? <==> HasField(fields, key)
    ensures r.Some? ==> exists i :: 0 <= i < |fields| && fields[i] == (key, r.value)
    decreases |fields|
  {
    if |fields| == 0 then None
    else if fields[0].0 == key then Some(fields[0].1)
    else
      var r := Lookup(fields[1..], key);
      assert HasField(fields, key) ==> HasField(fields[1..], key) by {
        if HasField(fields, key) {
          var i :| 0 <= i < |fields| && fields[i].0 == key;
          assert fields[1..][i - 1].0 == key;
        }
      }
      assert r.Some? ==> exists i :: 0 <= i < |fields| && fields[i] == (key, r.value) by {
        if r.Some? {
          var i :| 0 <= i < |fields[1..]| && fields[1..][i] == (key, r.value);
          assert fields[i + 1] == (key, r.value);
        }
      }
      r
  }

  /** The first field with the key decides the lookup. */
  lemma {:induction false} LookupFirst(fields: seq<(string, Value)>, i: nat, key: string)
    requires i < |fields| && fields[i].0 == key
    requires forall j :: 0 <= j < i ==> fields[j].0 != key
    ensures Lookup(fields, key) == Some(fields[i].1)
    decreases i
  {
    if i > 0 {
      LookupFirst(fields[1..], i - 1, key);
    }
  }

  /** `d[key] = v` on a dict's fields: the field holding the key takes the new
      value in place, and a new key goes to the end. */
  function SetField(fields: seq<(string, Value)>, key: string, v: Value): (r: seq<(string, Value)>)
    ensures Lookup(r, key) == Some(v)
    ensures forall k :: k != key ==> Lookup(r, k) == Lookup(fields, k)
    ensures |r| == if HasField(fields, key) then |fields| else |fields| + 1
    decreases |fields|
  {
    if |fields| == 0 then [(key, v)]
    else if fields[0].0 == key then [(key, v)] + fields[1..]
    else
      var r := [fields[0]] + SetField(fields[1..], key, v);
      HasFieldTail(fields, key);
      r
  }

  /** `d.setdefault(key, v)`, ignoring the returned value. */
  function SetDefaultField(fields: seq<(string, Value)>, key: string, v: Value): (r: seq<(string, Value)>)
    ensures HasField(fields, key) ==> r == fields
    ensures !HasField(fields, key) ==> r == fields + [(key, v)]
    ensures Lookup(r, key) == Some(Lookup(fields, key).GetOr(v))
    ensures forall k :: k != key ==> Lookup(r, k) == Lookup(fields, k)
  {
    if HasField(fields, key) then fields
    else
      LookupAppend(fields, key, v);
      fields + [(key, v)]
  }

  /** Past a first field with another key, the key is in the fields exactly
      when it is in the rest. */
  lemma HasFieldTail(fields: seq<(string, Value)>, key: string)
    ensures |fields| > 0 ==> (HasField(fields[1..], key) ==> HasField(fields, key))
    ensures |fields| > 0 && fields[0].0 != key ==> (HasField(fields, key) ==> HasField(fields[1..], key))
  {
    if |fields| > 0 {
      if HasField(fields[1..], key) {
        var i :| 0 <= i < |fields[1..]| && fields[1..][i].0 == key;
        assert fields[i + 1].0 == key;
      }
      if fields[0].0 != key && HasField(fields, key) {
        var i :| 0 <= i < |fields| && fields[i].0 == key;
        assert fields[1..][i - 1].0 == key;
      }
    }
  }

  /** Appending a field for a new key leaves the other lookups alone. */
  lemma {:induction false} LookupAppend(fields: seq<(string, Value)>, key: string, v: Value)
    requires !HasField(fields, key)
    ensures Lookup(fields + [(key, v)], key) == Some(v)
    ensures forall k :: k != key ==> Lookup(fields + [(key, v)], k) == Lookup(fields, k)
    decreases |fields|
  {
    if |fields| > 0 {
      assert (fields + [(key, v)])[1..] == fields[1..] + [(key, v)];
      HasFieldTail(fields, key);
      LookupAppend(fields[1..], key, v);
    }
  }

  predicate DistinctKeys(keys: seq<string>) {
    forall a, b :: 0 <= a < b < |keys| ==> keys[a] != keys[b]
  }

  /** The fields of a dict literal with the given keys and values, in order;
      with distinct keys every key finds its own value. */
  function Zip(keys: seq<string>, vals: seq<Value>): (r: seq<(string, Value)>)
    requires |keys| == |vals|
    ensures |r| == |keys| && forall i :: 0 <= i < |keys| ==> r[i] == (keys[i], vals[i])
    ensures DistinctKeys(keys) ==> forall i :: 0 <= i < |keys| ==> Lookup(r, keys[i]) == Some(vals[i])
  {
    var fields := seq(|keys|, i requires 0 <= i < |keys| => (keys[i], vals[i]));
    if DistinctKeys(keys) then
      forall i | 0 <= i < |keys| ensures Lookup(fields, keys[i]) == Some(vals[i]) {
        LookupFirst(fields, i, keys[i]);
      }
      fields
    else fields
  }

  /** `key in v` for a dict `v`; false for every other value. */
  predicate Has(v: Value, key: string) {
    v.Object? && HasField(v.fields, key)
  }

  /** `(v if isinstance(v, dict) else {}).get(key)` */
  function Get(v: Value, key: string): (r: Option<Value>)
    ensures r.Some? <==> Has(v, key)
  {
    if v.Object? then Lookup(v.fields, key) else None
  }

  /** `.get(key, default)` */
  function GetOr(v: Value, key: string, default: Value): Value {
    Get(v, key).GetOr(default)
  }

  /** `.get(key)` with Python's `None` for a missing key. */
  function GetOrNull(v: Value, key: string): Value {
    Get(v, key).GetOr(Null)
  }

  /** The string stored under `key`, when it is a string. */
  function GetStr(v: Value, key: string): (r: Option<string>)
    ensures r.Some? <==> Get(v, key).Some? && Get(v, key).value.Str?
  {
    match Get(v, key)
    case Some(Str(s)) => Some(s)
    case _ => None
  }

  /** `isinstance(x, str) and x` for the value under `key`. */
  function NonEmptyStr(v: Value, key: string): (r: Option<string>)
    ensures r.Some? ==> |r.value| > 0
  {
    match GetStr(v, key)
    case Some(s) => if |s| > 0 then Some(s) else None
    case None => None
  }

  /** Python `==` between two values: `True == 1` and `False == 0` hold. */
  predicate PyEq(a: Value, b: Value) {
    (NumberOf(a).Some? && NumberOf(a) == NumberOf(b))
    || (NumberOf(a).None? && a == b)
  }

  /** The number a `bool` or `int` stands for in arithmetic and comparisons. */
  function NumberOf(v: Value): Option<int> {
    match v
    case Bool(b) => Some(if b then 1 else 0)
    case Int(i) => Some(i)
    case _ => None
  }

  function BoolToString(b: bool): string {
    if b then "True" else "False"
  }

  /** `str(v)`. Containers are rendered the way `repr` lays them out, with
      strings inside them single-quoted without escaping. */
  function ToStr(v: Value): string
    decreases v, 1
  {
    match v
    case Null => "None"
    case Bool(b) => BoolToString(b)
    case Int(i) => PyStr.IntToString(i)
    case Str(s) => s
    case List(items) => "[" + ReprItems(v, items) + "]"
    case Object(fields) => "{" + ReprFields(v, fields) + "}"
  }

  /** Python's `repr` of a value, as f-strings print it inside containers;
      strings are single-quoted without escaping, which is Python's text only
      for strings in `ReprUnescaped` that hold no single quote. */
  function Repr(v: Value): string
    decreases v, 2
  {
    match v
    case Str(s) => "'" + s + "'"
    case _ => ToStr(v)
  }

  /** The ASCII characters Python's `repr` writes inside quotes as they are:
      the printable ones except the backslash. */
  predicate ReprKeeps(c: char) {
    ' ' <= c <= '~' && c != '\\'
  }

  /** A string Python's `repr` writes between quotes with nothing escaped: it
      holds only characters `repr` keeps, and not both kinds of quote (such a
      string is single-quoted with its single quotes escaped). On these strings
      `Repr` differs from Python's only in the quote it writes: Python
      double-quotes a string that holds a single quote. */
  predicate ReprUnescaped(s: string) {
    (forall k :: 0 <= k < |s| ==> ReprKeeps(s[k])) && !('\'' in s && '"' in s)
  }

  function ReprItems(parent: Value, items: seq<Value>): string
    requires forall i :: 0 <= i < |items| ==> items[i] < parent
    decreases parent, 0, |items|
  {
    if |items| == 0 then ""
    else if |items| == 1 then Repr(items[0])
    else Repr(items[0]) + ", " + ReprItems(parent, items[1..])
  }

  function ReprFields(parent: Value, fields: seq<(string, Value)>): string
    requires forall i :: 0 <= i < |fields| ==> fields[i].1 < parent
    decreases parent, 0, |fields|
  {
    if |fields| == 0 then ""
    else
      var head := "'" + fields[0].0 + "': " + Repr(fields[0].1);
      if |fields| == 1 then head else head + ", " + ReprFields(parent, fields[1..])
  }

  /** `json.dumps(v, ensure_ascii=False)` with the default separators; the
      escaping of quotes and control characters inside strings is not
      modelled. */
  function Dumps(v: Value): string
    decreases v, 1
  {
    match v
    case Null => "null"
    case Bool(b) => if b then "true" else "false"
    case Int(i) => PyStr.IntToString(i)
    case Str(s) => "\"" + s + "\""
    case List(items) => "[" + DumpsItems(v, items) + "]"
    case Object(fields) => "{" + DumpsFields(v, fields) + "}"
  }

  function DumpsItems(parent: Value, items: seq<Value>): string
    requires forall i :: 0 <= i < |items| ==> items[i] < parent
    decreases parent, 0, |items|
  {
    if |items| == 0 then ""
    else if |items| == 1 then Dumps(items[0])
    else Dumps(items[0]) + ", " + DumpsItems(parent, items[1..])
  }

  function DumpsFields(parent: Value, fields: seq<(string, Value)>): string
    requires forall i :: 0 <= i < |fields| ==> fields[i].1 < parent
    decreases parent, 0, |fields|
  {
    if |fields| == 0 then ""
    else
      var head := "\"" + fields[0].0 + "\": " + Dumps(fields[0].1);
      if |fields| == 1 then head else head + ", " + DumpsFields(parent, fields[1..])
  }

  /** A list whose items are all strings (`all(isinstance(x, str) for x in v)`). */
  predicate IsStringList(v: Value) {
    v.List? && forall i :: 0 <= i < |v.items| ==> v.items[i].Str?
  }

  function Strings(items: seq<Value>): (r: seq<string>)
    requires forall i :: 0 <= i < |items| ==> items[i].Str?
    ensures |r| == |items| && forall i :: 0 <= i < |items| ==> r[i] == items[i].s
  {
    seq(|items|, i requires 0 <= i < |items| => items[i].s)
  }

  function StrList(xs: seq<string>): (v: Value)
    ensures v.List? && |v.items| == |xs| && forall i :: 0 <= i < |xs| ==> v.items[i] == Str(xs[i])
  {
    List(StrItems(xs))
  }

  /** Each string as a value, in order. */
  function StrItems(xs: seq<string>): (r: seq<Value>)
    ensures |r| == |xs| && forall i :: 0 <= i < |xs| ==> r[i] == Str(xs[i])
    decreases |xs|
  {
    if |xs| == 0 then [] else [Str(xs[0])] + StrItems(xs[1..])
  }

  /** A list built from strings holds only strings, and reads back as them. */
  lemma StrListStrings(xs: seq<string>)
    ensures IsStringList(StrList(xs)) && Strings(StrList(xs).items) == xs
  {
  }
}
