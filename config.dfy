/** Reading the character's JSON configuration the way the clients do: with
    dictionary lookups that fall back to a default, Python truthiness, and
    numbers taken part in arithmetic. */
module Config {
  import opened Wrappers
  import opened Records
  import Text

  /** `v.get(key, default)`: only a dictionary has `get`. */
  function Get(v: Json, key: string, default: Json): (r: Result<Json>)
    ensures r.Err? <==> !v.JObj?
    ensures r.Err? ==> r.error == AttributeError
    ensures v.JObj? && key in v.fields ==> r == Ok(v.fields[key])
    ensures v.JObj? && key !in v.fields ==> r == Ok(default)
  {
    if !v.JObj? then Err(AttributeError)
    else if key in v.fields then Ok(v.fields[key])
    else Ok(default)
  }

  const EmptyObject: Json := JObj(map[])

  /** `v.get(k1, {}).get(k2, {})...get(kn, default)`. */
  function Lookup(v: Json, keys: seq<string>, default: Json): (r: Result<Json>)
    requires keys != []
    ensures r.Err? <==> !v.JObj? || (|keys| > 1 && keys[0] in v.fields && Lookup(v.fields[keys[0]], keys[1..], default).Err?)
    ensures r.Err? ==> r.error == AttributeError
    decreases |keys|
  {
    if |keys| == 1 then Get(v, keys[0], default)
    else
      var next := Get(v, keys[0], EmptyObject);
      if next.Err? then Err(next.error) else Lookup(next.value, keys[1..], default)
  }

  /** A lookup along a path that is absent yields the default, whatever the
      depth. */
  lemma {:induction false} LookupAbsent(v: Json, keys: seq<string>, default: Json)
    requires keys != [] && v.JObj? && keys[0] !in v.fields
    ensures Lookup(v, keys, default) == Ok(default)
  {
    if |keys| > 1 {
      EmptyLookup(keys[1..], default);
    }
  }

  lemma {:induction false} EmptyLookup(keys: seq<string>, default: Json)
    requires keys != []
    ensures Lookup(EmptyObject, keys, default) == Ok(default)
    decreases |keys|
  {
    if |keys| > 1 {
      EmptyLookup(keys[1..], default);
    }
  }

  /** Once a lookup along a path succeeds, every object on the path is a
      dictionary, so a lookup of any other last key along it succeeds too. */
  lemma {:induction false} LookupSibling(v: Json, path: seq<string>, k1: string, k2: string, d1: Json, d2: Json)
    requires Lookup(v, path + [k1], d1).Ok?
    ensures Lookup(v, path + [k2], d2).Ok?
    decreases |path|
  {
    if path == [] {
      assert path + [k1] == [k1] && path + [k2] == [k2];
    } else {
      assert (path + [k1])[0] == path[0] && (path + [k1])[1..] == path[1..] + [k1];
      assert (path + [k2])[0] == path[0] && (path + [k2])[1..] == path[1..] + [k2];
      if path[0] in v.fields {
        LookupSibling(v.fields[path[0]], path[1..], k1, k2, d1, d2);
      }
    }
  }

  /** Python truthiness of a JSON value. */
  predicate JTruthy(v: Json) {
    match v
    case JNull => false
    case JBool(b) => b
    case JNum(n) => n != 0
    case JStr(s) => s != ""
    case JArr(items) => items != []
    case JObj(fields) => fields != map[]
  }

  /** A JSON value used as a number: booleans count as 0 and 1, and anything
      else raises. */
  function JInt(v: Json): (r: Result<int>)
    ensures r.Ok? <==> v.JNum? || v.JBool?
    ensures v.JNum? ==> r == Ok(v.n)
    ensures v.JBool? ==> r == Ok(if v.b then 1 else 0)
    ensures r.Err? ==> r.error == TypeError
  {
    match v
    case JNum(n) => Ok(n)
    case JBool(b) => Ok(if b then 1 else 0)
    case _ => Err(TypeError)
  }

  /** A JSON value used where a string is expected; None for `null`. */
  function JText(v: Json): (r: Result<Option<string>>)
    ensures v.JStr? ==> r == Ok(Some(v.s))
    ensures v.JNull? ==> r == Ok(None)
    ensures r.Err? <==> !v.JStr? && !v.JNull?
  {
    match v
    case JStr(s) => Ok(Some(s))
    case JNull => Ok(None)
    case _ => Err(TypeError)
  }

  /** A JSON value written into an f-string: scalars print as Python prints
      them; a list or a dictionary prints as a placeholder. */
  function JFormat(v: Json): (r: string)
    ensures v.JStr? ==> r == v.s
    ensures v.JNum? ==> Text.ParseInt(r) == Some(v.n)
  {
    match v
    case JStr(s) => s
    case JNull => "None"
    case JBool(b) => if b then "True" else "False"
    case JNum(n) => Text.ParseIntOfDecimal(n); Text.IntToDecimal(n)
    case JArr(_) => "[...]"
    case JObj(_) => "{...}"
  }

  /** A keyword filter taken from configuration: it applies only when the
      value is truthy, and compares with the value's printed form. */
  function FilterArg(v: Json): (r: Option<string>)
    ensures r.Some? <==> JTruthy(v)
    ensures v.JStr? && v.s != "" ==> r == Some(v.s)
  {
    if JTruthy(v) then Some(JFormat(v)) else None
  }
}
