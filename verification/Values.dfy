/**
 * The document value every layer exchanges. Mappings are maps from string keys, so two values are
 * equal exactly when the program's own `==` says so: insertion order does not count.
 */
module Values {
  import opened Text
  import Utf8

  datatype Value =
    | Null
    | Bool(b: bool)
    | Num(n: int)
    | Str(s: string)
    | Seq(items: seq<Value>)
    | Map(m: map<string, Value>)

  const U64_LIMIT := 0x1_0000_0000_0000_0000

  /** The sizes and integers that Rust's u64 and i64 can represent, throughout the value. */
  ghost predicate Fits(v: Value) {
    match v
    case Null => true
    case Bool(_) => true
    case Num(n) => -0x8000_0000_0000_0000 <= n < U64_LIMIT
    case Str(s) => FitsText(s)
    case Seq(items) => |items| < U64_LIMIT && forall x :: x in items ==> Fits(x)
    case Map(m) => |m| < U64_LIMIT && forall k :: k in m ==> FitsText(k) && Fits(m[k])
  }

  ghost predicate FitsText(s: string) {
    |Utf8.Encode(s)| < U64_LIMIT
  }

  function Get(v: Value, key: string): Option<Value> {
    if v.Map? && key in v.m then Some(v.m[key]) else None
  }

  function AsStr(v: Value): Option<string> {
    if v.Str? then Some(v.s) else None
  }

  function AsSeq(v: Value): Option<seq<Value>> {
    if v.Seq? then Some(v.items) else None
  }

  /** `as_u64` */
  function AsNat(v: Value): Option<nat> {
    if v.Num? && v.n >= 0 then Some(v.n) else None
  }

  function GetStr(v: Value, key: string): Option<string> {
    match Get(v, key)
    case Some(x) => AsStr(x)
    case None => None
  }

  function GetSeq(v: Value, key: string): Option<seq<Value>> {
    match Get(v, key)
    case Some(x) => AsSeq(x)
    case None => None
  }

  /** `filter_map(Value::as_str)` over a sequence. */
  function Strings(items: seq<Value>): (r: seq<string>)
    ensures forall x :: x in r <==> Str(x) in items
  {
    if items == [] then []
    else
      var rest := Strings(items[1..]);
      assert items == [items[0]] + items[1..];
      if items[0].Str? then [items[0].s] + rest else rest
  }

  /** A string or a list of strings, as selectors and rules write them. */
  function OneOrMany(v: Value): seq<string> {
    match v
    case Seq(items) => Strings(items)
    case Str(s) => [s]
    case _ => []
  }

  /** Remove a key when the value is a mapping; any other value is left alone. */
  function Remove(v: Value, key: string): Value {
    if v.Map? then Map(v.m - {key}) else v
  }

  lemma RemoveFits(v: Value, key: string)
    requires Fits(v)
    ensures Fits(Remove(v, key))
  {
    if v.Map? {
      assert (v.m - {key}).Keys == v.m.Keys - {key};
      assert |(v.m - {key}).Keys| <= |v.m.Keys|;
    }
  }

  lemma FieldFits(v: Value, key: string)
    requires Fits(v)
    ensures Get(v, key).Some? ==> Fits(Get(v, key).value)
    ensures GetStr(v, key).Some? ==> FitsText(GetStr(v, key).value) && Fits(Str(GetStr(v, key).value))
  {
  }

  /** Maps that agree on every field are equal. */
  lemma SameFields(m: map<string, Value>, n: map<string, Value>)
    requires forall k :: Get(Map(m), k) == Get(Map(n), k)
    ensures m == n
  {
    forall k ensures k in m <==> k in n {
      assert Get(Map(m), k) == Get(Map(n), k);
    }
    forall k | k in m ensures m[k] == n[k] {
      assert Get(Map(m), k) == Get(Map(n), k);
    }
  }
}
