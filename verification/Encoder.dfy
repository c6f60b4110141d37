/**
 * The encoder's methods (crates/allod-core/src/canon.rs:12-92) over documents as they are held in
 * memory: mappings keep their insertion order, and floats, tags and non-string keys can occur.
 */
module Encoder {
  import opened Text
  import opened Values
  import opened Order
  import opened Canon
  import Utf8

  /** `serde_yaml::Value`; `Float` stands for every number that is neither a u64 nor an i64. */
  datatype Yaml =
    | YNull
    | YBool(b: bool)
    | YInt(n: int)
    | YFloat
    | YStr(s: string)
    | YSeq(items: seq<Yaml>)
    | YMap(entries: seq<Entry>)
    | YTagged(tag: string, inner: Yaml)

  datatype Entry = Entry(key: Yaml, val: Yaml)

  /** What the in-memory representation guarantees: unique mapping keys, machine integers and sizes. */
  ghost predicate Held(y: Yaml) {
    match y
    case YInt(n) => -0x8000_0000_0000_0000 <= n < U64_LIMIT
    case YStr(s) => FitsText(s)
    case YSeq(items) => |items| < U64_LIMIT && forall i :: 0 <= i < |items| ==> Held(items[i])
    case YMap(entries) =>
      && |entries| < U64_LIMIT
      && (forall i :: 0 <= i < |entries| ==> Held(entries[i].key) && Held(entries[i].val))
      && (forall i, j :: 0 <= i < j < |entries| ==> entries[i].key != entries[j].key)
    case _ => true
  }

  /** No float, no tag, no mapping key that is not a string. */
  predicate Encodable(y: Yaml) {
    match y
    case YFloat => false
    case YTagged(_, _) => false
    case YSeq(items) => forall i :: 0 <= i < |items| ==> Encodable(items[i])
    case YMap(entries) => forall i :: 0 <= i < |entries| ==> entries[i].key.YStr? && Encodable(entries[i].val)
    case _ => true
  }

  /** The value a document denotes once insertion order is forgotten. */
  function ValueOf(y: Yaml): Value
    requires Encodable(y)
    decreases y, 0
  {
    match y
    case YNull => Null
    case YBool(b) => Bool(b)
    case YInt(n) => Num(n)
    case YStr(s) => Str(s)
    case YSeq(items) => Seq(ValuesOf(items))
    case YMap(entries) => Map(MapOf(entries))
  }

  function MapOf(entries: seq<Entry>): (m: map<string, Value>)
    requires forall i :: 0 <= i < |entries| ==> entries[i].key.YStr? && Encodable(entries[i].val)
    decreases entries, 1
  {
    if entries == [] then map[]
    else MapOf(entries[1..])[entries[0].key.s := EntryValue(entries[0])]
  }

  function EntryValue(entry: Entry): Value
    requires Encodable(entry.val)
    decreases entry, 1
  {
    ValueOf(entry.val)
  }

  function ValuesOf(items: seq<Yaml>): (r: seq<Value>)
    requires forall i :: 0 <= i < |items| ==> Encodable(items[i])
    ensures |r| == |items|
    ensures forall i :: 0 <= i < |items| ==> r[i] == ValueOf(items[i])
    decreases items, 1
  {
    seq(|items|, i requires 0 <= i < |items| => ValueOf(items[i]))
  }

  lemma {:induction false} MapOfEntries(entries: seq<Entry>)
    requires forall i :: 0 <= i < |entries| ==> entries[i].key.YStr? && Encodable(entries[i].val)
    requires forall i, j :: 0 <= i < j < |entries| ==> entries[i].key != entries[j].key
    ensures |MapOf(entries)| == |entries|
    ensures forall i :: 0 <= i < |entries| ==>
              entries[i].key.s in MapOf(entries) && MapOf(entries)[entries[i].key.s] == ValueOf(entries[i].val)
    ensures forall k :: k in MapOf(entries) ==> exists i :: 0 <= i < |entries| && entries[i].key == YStr(k)
  {
    hide Encodable, ValueOf;
    if entries == [] {
    } else {
      var rest := entries[1..];
      MapOfEntries(rest);
      assert entries[0].key.s !in MapOf(rest);
      forall k | k in MapOf(entries) ensures exists i :: 0 <= i < |entries| && entries[i].key == YStr(k) {
        if k == entries[0].key.s {
          assert entries[0].key == YStr(k);
        } else {
          var i :| 0 <= i < |rest| && rest[i].key == YStr(k);
          assert entries[i + 1].key == YStr(k);
        }
      }
      forall i | 0 <= i < |entries|
        ensures entries[i].key.s in MapOf(entries) && MapOf(entries)[entries[i].key.s] == ValueOf(entries[i].val)
      {
        if i > 0 {
          assert entries[i] == rest[i - 1];
        }
      }
    }
  }

  /** One collected map entry: its key, the key's encoding, and the value still to be encoded. */
  datatype Keyed = Keyed(key: string, bytes: Bytes, val: Yaml)

  predicate BytesLess(a: Keyed, b: Keyed) {
    LexLess(ByteLess, a.bytes, b.bytes)
  }

  ghost predicate Encoded(es: seq<Keyed>) {
    forall e :: e in es ==> FitsText(e.key) && e.bytes == KeyBytes(e.key)
  }

  function Keys(es: seq<Keyed>): (r: seq<string>)
    ensures |r| == |es|
    ensures forall i :: 0 <= i < |es| ==> r[i] == es[i].key
  {
    seq(|es|, i requires 0 <= i < |es| => es[i].key)
  }

  lemma BytesOrderTotal(es: seq<Keyed>)
    requires Encoded(es) && Distinct(Keys(es))
    ensures Transitive(BytesLess)
    ensures forall i, j :: 0 <= i < j < |es| ==> BytesLess(es[i], es[j]) || BytesLess(es[j], es[i])
  {
    assert StrictOrder(ByteLess);
    forall x: Keyed, y: Keyed, z: Keyed | BytesLess(x, y) && BytesLess(y, z) ensures BytesLess(x, z) {
      LexTransitive(ByteLess, x.bytes, y.bytes, z.bytes);
    }
    forall i, j | 0 <= i < j < |es| ensures BytesLess(es[i], es[j]) || BytesLess(es[j], es[i]) {
      assert es[i] in es && es[j] in es;
      KeyLessIsOrder();
      KeyOrderIsBytewise(es[i].key, es[j].key);
      KeyOrderIsBytewise(es[j].key, es[i].key);
    }
  }

  lemma KeyIn(es: seq<Keyed>, k: string)
    ensures k in Keys(es) <==> exists e :: e in es && e.key == k
  {
    if k in Keys(es) {
      var i :| 0 <= i < |es| && Keys(es)[i] == k;
      assert es[i] in es;
    }
    if e :| e in es && e.key == k {
      var i :| 0 <= i < |es| && es[i] == e;
      assert Keys(es)[i] == k;
    }
  }

  /** Sorting the collected entries by their key bytes lists the keys as the specification does. */
  lemma SortedAsSpecified(es: seq<Keyed>, keys: set<string>)
    requires Encoded(es) && Distinct(Keys(es))
    requires forall k :: k in keys <==> k in Keys(es)
    ensures Keys(Sorted(BytesLess, es)) == SortedKeys(keys)
  {
    var sorted := Sorted(BytesLess, es);
    BytesOrderTotal(es);
    SortAscends(BytesLess, es);
    forall i, j | 0 <= i < j < |sorted| ensures KeyLess(Keys(sorted)[i], Keys(sorted)[j]) {
      assert sorted[i] in es && sorted[j] in es;
      KeyOrderIsBytewise(sorted[i].key, sorted[j].key);
    }
    assert Ascending(KeyLess, Keys(sorted));
    hide BytesLess, Keys, KeyLess;
    forall k ensures k in Keys(sorted) <==> k in SortedKeys(keys) {
      KeyIn(es, k);
      KeyIn(sorted, k);
    }
    KeyLessIsOrder();
    AscendingUnique(KeyLess, Keys(sorted), SortedKeys(keys));
  }

  // ---------------------------------------------------------------- the collected entries

  predicate CollectedAt(entry: Entry, e: Keyed) {
    entry == Entry(YStr(e.key), e.val) && e.bytes == KeyBytes(e.key)
  }

  ghost predicate Collects(y: Yaml, es: seq<Keyed>) {
    && y.YMap? && Held(y)
    && |es| == |y.entries|
    && forall i :: 0 <= i < |es| ==> CollectedAt(y.entries[i], es[i])
  }

  /** `e` was collected from one of the entries of mapping `y`. */
  ghost predicate FromEntry(y: Yaml, e: Keyed)
    requires y.YMap?
  {
    FitsText(e.key) && e.bytes == KeyBytes(e.key) && e.val < y && Held(e.val)
  }

  lemma CollectedFromEntries(y: Yaml, es: seq<Keyed>)
    requires Collects(y, es)
    ensures forall e :: e in es ==> FromEntry(y, e)
    ensures Encoded(es) && Distinct(Keys(es))
  {
    forall i | 0 <= i < |es| ensures FromEntry(y, es[i]) {
      assert CollectedAt(y.entries[i], es[i]);
      assert Held(y.entries[i].key) && Held(y.entries[i].val);
    }
    forall i, j | 0 <= i < j < |es| ensures es[i].key != es[j].key {
      assert CollectedAt(y.entries[i], es[i]) && CollectedAt(y.entries[j], es[j]);
    }
  }

  lemma EncodableEntries(y: Yaml, es: seq<Keyed>)
    requires Collects(y, es)
    ensures Encodable(y) <==> forall e :: e in Sorted(BytesLess, es) ==> Encodable(e.val)
  {
    hide BytesLess;
    assert forall i :: 0 <= i < |es| ==> CollectedAt(y.entries[i], es[i]) && es[i] in Sorted(BytesLess, es);
  }

  function KeyedBytes(es: seq<Keyed>): Bytes
    requires forall i :: 0 <= i < |es| ==> Encodable(es[i].val)
  {
    if es == [] then [] else es[0].bytes + (Canonical(ValueOf(es[0].val)) + KeyedBytes(es[1..]))
  }

  lemma {:induction false} KeyedSnoc(es: seq<Keyed>, e: Keyed)
    requires forall i :: 0 <= i < |es| ==> Encodable(es[i].val)
    requires Encodable(e.val)
    ensures KeyedBytes(es + [e]) == KeyedBytes(es) + (e.bytes + Canonical(ValueOf(e.val)))
  {
    var c := Canonical(ValueOf(e.val));
    if es == [] {
      assert [] + [e] == [e];
      assert KeyedBytes([e]) == e.bytes + (c + []);
    } else {
      KeyedSnoc(es[1..], e);
      assert (es + [e])[1..] == es[1..] + [e];
      Append(Canonical(ValueOf(es[0].val)), KeyedBytes(es[1..]), e.bytes + c);
      Append(es[0].bytes, Canonical(ValueOf(es[0].val)) + KeyedBytes(es[1..]), e.bytes + c);
    }
  }

  ghost predicate EntryIn(m: map<string, Value>, e: Keyed) {
    Encodable(e.val) && e.bytes == KeyBytes(e.key) && e.key in m && m[e.key] == ValueOf(e.val)
  }

  lemma {:induction false} KeyedAreEntries(v: Value, es: seq<Keyed>)
    requires v.Map?
    requires forall i :: 0 <= i < |es| ==> EntryIn(v.m, es[i])
    ensures forall k :: k in Keys(es) ==> k in v.m
    ensures forall i :: 0 <= i < |es| ==> Encodable(es[i].val)
    ensures KeyedBytes(es) == EntriesBytes(v, Keys(es))
  {
    if es == [] {
    } else {
      KeyedAreEntries(v, es[1..]);
      assert Keys(es) == [es[0].key] + Keys(es[1..]);
      assert EntryIn(v.m, es[0]);
    }
  }

  lemma CollectedEntries(y: Yaml, es: seq<Keyed>)
    requires Collects(y, es) && Encodable(y)
    ensures |MapOf(y.entries)| == |es|
    ensures forall i :: 0 <= i < |es| ==> EntryIn(MapOf(y.entries), es[i])
    ensures forall k :: k in MapOf(y.entries) <==> k in Keys(es)
  {
    var m := MapOf(y.entries);
    MapOfEntries(y.entries);
    assert forall i :: 0 <= i < |es| ==> CollectedAt(y.entries[i], es[i]);
    forall k | k in m ensures k in Keys(es) {
      var i :| 0 <= i < |y.entries| && y.entries[i].key == YStr(k);
      assert Keys(es)[i] == k;
    }
  }

  lemma SortedEntries(y: Yaml, es: seq<Keyed>)
    requires Collects(y, es) && Encodable(y)
    ensures forall e :: e in Sorted(BytesLess, es) ==> Encodable(e.val)
    ensures Body(ValueOf(y)) == KeyedBytes(Sorted(BytesLess, es))
    ensures |MapOf(y.entries)| == |es|
  {
    hide BytesLess;
    var sorted, m := Sorted(BytesLess, es), MapOf(y.entries);
    EncodableEntries(y, es);
    CollectedFromEntries(y, es);
    CollectedEntries(y, es);
    SortedAsSpecified(es, m.Keys);
    forall i | 0 <= i < |sorted| ensures EntryIn(m, sorted[i]) {
      assert sorted[i] in es;
    }
    KeyedAreEntries(Map(m), sorted);
  }

  /** The head of a mapping and its sorted entries are its canonical bytes. */
  lemma MappingBytes(start: Bytes, y: Yaml, es: seq<Keyed>)
    requires Collects(y, es) && Encodable(y)
    ensures forall e :: e in Sorted(BytesLess, es) ==> Encodable(e.val)
    ensures (start + Head(5, |es|)) + KeyedBytes(Sorted(BytesLess, es)) == start + Canonical(ValueOf(y))
  {
    hide BytesLess;
    SortedEntries(y, es);
    Append(start, Head(5, |es|), KeyedBytes(Sorted(BytesLess, es)));
  }

  // ---------------------------------------------------------------- the encoder

  /** The growing output vector. */
  class Encoder {
    var out: Bytes

    constructor ()
      ensures out == []
    {
      out := [];
    }

    method EncodeHead(major: Major, arg: nat)
      requires arg < U64_LIMIT
      modifies this
      ensures out == old(out) + Head(major, arg)
    {
      Powers();
      if arg < 24 {
        out := out + [32 * major + arg];
      } else if arg <= 0xff {
        out := out + [32 * major + 24];
        out := out + BigEndian(arg, 1);
      } else if arg <= 0xffff {
        out := out + [32 * major + 25];
        out := out + BigEndian(arg, 2);
      } else if arg <= 0xffff_ffff {
        out := out + [32 * major + 26];
        out := out + BigEndian(arg, 4);
      } else {
        out := out + [32 * major + 27];
        out := out + BigEndian(arg, 8);
      }
    }

    method EncodeText(s: string)
      requires FitsText(s)
      modifies this
      ensures out == old(out) + KeyBytes(s)
    {
      EncodeHead(3, |Utf8.Encode(s)|);
      out := out + Utf8.Encode(s);
    }

    method Encode(y: Yaml) returns (ok: bool)
      requires Held(y)
      modifies this
      ensures ok == Encodable(y)
      ensures ok ==> out == old(out) + Canonical(ValueOf(y))
      decreases y, 2
    {
      match y {
        case YNull =>
          out := out + [0xf6];
          ok := true;
        case YBool(b) =>
          out := out + [if b then 0xf5 else 0xf4];
          ok := true;
        case YInt(n) =>
          if n >= 0 {
            EncodeHead(0, n);
          } else {
            EncodeHead(1, -(n + 1));
          }
          ok := true;
        case YStr(s) =>
          EncodeText(s);
          ok := true;
        case YSeq(items) =>
          ok := EncodeItems(y);
        case YMap(entries) =>
          ok := EncodeMapping(y);
        case _ =>
          ok := false;
      }
    }

    method EncodeItems(y: Yaml) returns (ok: bool)
      requires Held(y) && y.YSeq?
      modifies this
      ensures ok == Encodable(y)
      ensures ok ==> out == old(out) + Canonical(ValueOf(y))
      decreases y, 1
    {
      var items := y.items;
      EncodeHead(4, |items|);
      ghost var start := out;
      for i := 0 to |items|
        invariant forall j :: 0 <= j < i ==> Encodable(items[j])
        invariant out == start + ItemsBytes(ValuesOf(items[..i]))
      {
        ok := Encode(items[i]);
        if !ok {
          return;
        }
        ItemEncoded(start, items, i);
      }
      ok := true;
      assert items[..|items|] == items;
      Append(old(out), Head(4, |items|), ItemsBytes(ValuesOf(items)));
    }

    method EncodeMapping(y: Yaml) returns (ok: bool)
      requires Held(y) && y.YMap?
      modifies this
      ensures ok == Encodable(y)
      ensures ok ==> out == old(out) + Canonical(ValueOf(y))
      decreases y, 1
    {
      hide BytesLess, KeyedBytes, Canonical, ValueOf;
      var collected;
      ok, collected := CollectEntries(y);
      if ok {
        var sorted := Sorted(BytesLess, collected);
        CollectedFromEntries(y, collected);
        EncodableEntries(y, collected);
        EncodeHead(5, |sorted|);
        ok := EncodeSorted(y, sorted);
        if ok {
          MappingBytes(old(out), y, collected);
        }
      }
    }

    method CollectEntries(y: Yaml) returns (ok: bool, collected: seq<Keyed>)
      requires Held(y) && y.YMap?
      ensures ok ==> Collects(y, collected)
      ensures !ok ==> !Encodable(y)
    {
      collected := [];
      for i := 0 to |y.entries|
        invariant |collected| == i
        invariant forall j :: 0 <= j < i ==> CollectedAt(y.entries[j], collected[j])
      {
        var entry := y.entries[i];
        if !entry.key.YStr? {
          return false, collected;
        }
        assert Held(entry.key);
        var k := new Encoder();
        k.EncodeText(entry.key.s);
        collected := collected + [Keyed(entry.key.s, k.out, entry.val)];
      }
      ok := true;
    }

    method EncodeSorted(ghost y: Yaml, es: seq<Keyed>) returns (ok: bool)
      requires y.YMap? && forall e :: e in es ==> FromEntry(y, e)
      modifies this
      ensures ok == forall i :: 0 <= i < |es| ==> Encodable(es[i].val)
      ensures ok ==> out == old(out) + KeyedBytes(es)
      decreases y, 0
    {
      for i := 0 to |es|
        invariant forall j :: 0 <= j < i ==> Encodable(es[j].val)
        invariant out == old(out) + KeyedBytes(es[..i])
      {
        assert FromEntry(y, es[i]);
        out := out + es[i].bytes;
        ok := Encode(es[i].val);
        if !ok {
          return;
        }
        KeyedEncoded(old(out), es, i);
      }
      ok := true;
      assert es[..|es|] == es;
    }
  }

  lemma ItemEncoded(start: Bytes, items: seq<Yaml>, i: nat)
    requires i < |items|
    requires forall j :: 0 <= j <= i ==> Encodable(items[j])
    ensures start + ItemsBytes(ValuesOf(items[..i + 1])) == (start + ItemsBytes(ValuesOf(items[..i]))) + Canonical(ValueOf(items[i]))
  {
    ValuesSnoc(items, i);
    ItemsSnoc(ValuesOf(items[..i]), ValueOf(items[i]));
    Append(start, ItemsBytes(ValuesOf(items[..i])), Canonical(ValueOf(items[i])));
  }

  lemma ValuesSnoc(items: seq<Yaml>, i: nat)
    requires i < |items|
    requires forall j :: 0 <= j <= i ==> Encodable(items[j])
    ensures ValuesOf(items[..i + 1]) == ValuesOf(items[..i]) + [ValueOf(items[i])]
  {
    assert forall j :: 0 <= j <= i ==> items[..i + 1][j] == items[j];
    assert forall j :: 0 <= j < i ==> items[..i][j] == items[j];
  }

  lemma KeyedEncoded(start: Bytes, es: seq<Keyed>, i: nat)
    requires i < |es|
    requires forall j :: 0 <= j <= i ==> Encodable(es[j].val)
    ensures start + KeyedBytes(es[..i + 1]) == ((start + KeyedBytes(es[..i])) + es[i].bytes) + Canonical(ValueOf(es[i].val))
  {
    hide Canonical, ValueOf, Encodable, KeyedBytes;
    assert es[..i + 1] == es[..i] + [es[i]];
    assert forall j :: 0 <= j < i ==> es[..i][j] == es[j];
    KeyedSnoc(es[..i], es[i]);
    Regroup(start, KeyedBytes(es[..i]), es[i].bytes, Canonical(ValueOf(es[i].val)));
  }

  lemma Regroup(a: Bytes, b: Bytes, c: Bytes, d: Bytes)
    ensures a + (b + (c + d)) == ((a + b) + c) + d
  {
  }

  lemma {:induction false} ItemsSnoc(xs: seq<Value>, x: Value)
    ensures ItemsBytes(xs + [x]) == ItemsBytes(xs) + Canonical(x)
  {
    if xs == [] {
      assert [] + [x] == [x];
      assert ItemsBytes([x]) == Canonical(x) + ItemsBytes([]);
    } else {
      ItemsSnoc(xs[1..], x);
      assert (xs + [x])[1..] == xs[1..] + [x];
      Append(Canonical(xs[0]), ItemsBytes(xs[1..]), Canonical(x));
    }
  }

  // ---------------------------------------------------------------- canonical_cbor

  /** The bytes of a document, or an error exactly when it holds something without a canonical form. */
  method CanonicalCbor(y: Yaml) returns (r: Result<Bytes>)
    requires Held(y)
    ensures r.Ok? <==> Encodable(y)
    ensures r.Ok? ==> r.value == Canonical(ValueOf(y))
  {
    var e := new Encoder();
    var ok := e.Encode(y);
    if ok {
      assert e.out == [] + Canonical(ValueOf(y));
      r := Ok(e.out);
    } else {
      r := Err("no canonical encoding");
    }
  }

  lemma KeyedFits(keys: seq<string>, m: map<string, Value>)
    requires |m| == |keys| < U64_LIMIT
    requires forall i :: 0 <= i < |keys| ==> FitsText(keys[i]) && keys[i] in m && Fits(m[keys[i]])
    requires forall k :: k in m ==> k in keys
    ensures Fits(Map(m))
  {
    hide FitsText;
  }

  lemma EntryKeysFit(entries: seq<Entry>)
    requires Held(YMap(entries)) && Encodable(YMap(entries))
    ensures |entries| < U64_LIMIT && forall i :: 0 <= i < |entries| ==> entries[i].key.YStr? && FitsText(entries[i].key.s)
    ensures forall i, j :: 0 <= i < j < |entries| ==> entries[i].key != entries[j].key
  {
    hide FitsText;
    forall i | 0 <= i < |entries| ensures FitsText(entries[i].key.s) {
      assert Held(entries[i].key);
    }
  }

  lemma MapFits(entries: seq<Entry>)
    requires Held(YMap(entries)) && Encodable(YMap(entries))
    requires forall i :: 0 <= i < |entries| ==> Fits(ValueOf(entries[i].val))
    ensures Fits(ValueOf(YMap(entries)))
  {
    hide FitsText, Fits, MapOf, Held;
    EntryKeysFit(entries);
    MapOfEntries(entries);
    var m := MapOf(entries);
    assert ValueOf(YMap(entries)) == Map(m);
    hide ValueOf, Encodable;
    var keys := seq(|entries|, i requires 0 <= i < |entries| => entries[i].key.s);
    forall k | k in m ensures k in keys {
      var i :| 0 <= i < |entries| && entries[i].key == YStr(k);
      assert keys[i] == k;
    }
    KeyedFits(keys, m);
  }

  lemma {:induction false} HeldFits(y: Yaml)
    requires Held(y) && Encodable(y)
    ensures Fits(ValueOf(y))
  {
    match y {
      case YSeq(items) =>
        forall i | 0 <= i < |items| ensures Fits(ValueOf(items[i])) {
          HeldFits(items[i]);
        }
      case YMap(entries) =>
        forall i | 0 <= i < |entries| ensures Fits(ValueOf(entries[i].val)) {
          var entry := entries[i];
          HeldFits(entry.val);
        }
        MapFits(entries);
      case _ =>
    }
  }

  /**
   * Two documents have the same bytes exactly when they denote the same value: the encoding is
   * injective, and the insertion order of map keys never shows.
   */
  lemma SameBytesSameValue(x: Yaml, y: Yaml)
    requires Held(x) && Held(y) && Encodable(x) && Encodable(y)
    ensures Canonical(ValueOf(x)) == Canonical(ValueOf(y)) <==> ValueOf(x) == ValueOf(y)
  {
    HeldFits(x);
    HeldFits(y);
    if Canonical(ValueOf(x)) == Canonical(ValueOf(y)) {
      Injective(ValueOf(x), ValueOf(y));
    }
  }

  ghost predicate StringKeyed(x: seq<Entry>) {
    && (forall i :: 0 <= i < |x| ==> x[i].key.YStr? && Encodable(x[i].val))
    && (forall i, j :: 0 <= i < j < |x| ==> x[i].key != x[j].key)
  }

  lemma MapOfIncluded(x: seq<Entry>, y: seq<Entry>)
    requires StringKeyed(x) && StringKeyed(y)
    requires forall e :: e in x ==> e in y
    ensures forall k :: k in MapOf(x) ==> k in MapOf(y) && MapOf(x)[k] == MapOf(y)[k]
  {
    MapOfEntries(x);
    MapOfEntries(y);
    forall k | k in MapOf(x) ensures k in MapOf(y) && MapOf(x)[k] == MapOf(y)[k] {
      var i :| 0 <= i < |x| && x[i].key == YStr(k);
      assert x[i] in y;
      var j :| 0 <= j < |y| && y[j] == x[i];
      assert y[j].key.s == k;
    }
  }

  /** Listing the entries of a mapping in another order leaves its bytes alone. */
  lemma InsertionOrderIsForgotten(x: seq<Entry>, y: seq<Entry>)
    requires Held(YMap(x)) && Held(YMap(y)) && Encodable(YMap(x)) && Encodable(YMap(y))
    requires forall e :: e in x <==> e in y
    ensures Canonical(ValueOf(YMap(x))) == Canonical(ValueOf(YMap(y)))
  {
    MapOfIncluded(x, y);
    MapOfIncluded(y, x);
    assert MapOf(x) == MapOf(y);
  }
}
