/**
 * Deterministic CBOR (crates/allod-core/src/canon.rs): Core Deterministic Encoding, section 4.2.1
 * of RFC 8949. `Canonical` is the specification, a function of the value alone; the `Encoder`
 * methods follow the program's appends and its in-place sort of the map entries.
 */
module Canon {
  import opened Text
  import opened Values
  import opened Order
  import Utf8

  // ---------------------------------------------------------------- heads

  /** The low `width` bytes of `n`, most significant first. */
  function BigEndian(n: nat, width: nat): (r: Bytes)
    ensures |r| == width
  {
    if width == 0 then [] else BigEndian(n / 256, width - 1) + [n % 256]
  }

  /** How many argument bytes follow the initial byte, and the additional-information field. */
  function Width(arg: nat): (w: nat)
  {
    if arg < 24 then 0
    else if arg <= 0xff then 1
    else if arg <= 0xffff then 2
    else if arg <= 0xffff_ffff then 4
    else 8
  }

  function Info(width: nat): nat
    requires width in {1, 2, 4, 8}
  {
    if width == 1 then 24 else if width == 2 then 25 else if width == 4 then 26 else 27
  }

  type Major = n: nat | n < 8

  /** Initial byte plus argument. `major << 5 | x` is `32 * major + x` because `x < 32`. */
  function Head(major: Major, arg: nat): (r: Bytes)
    ensures |r| == 1 + Width(arg)
  {
    var w := Width(arg);
    if w == 0 then [32 * major + arg] else [32 * major + Info(w)] + BigEndian(arg, w)
  }

  // ---------------------------------------------------------------- key order

  predicate ByteLess(x: Byte, y: Byte) {
    x < y
  }

  function KeyBytes(k: string): Bytes {
    var u := Utf8.Encode(k);
    Head(3, |u|) + u
  }

  /** Shorter keys first, then bytewise; `KeyOrderIsBytewise` ties it to the encoded keys. */
  predicate KeyLess(a: string, b: string) {
    var ua, ub := Utf8.Encode(a), Utf8.Encode(b);
    |ua| < |ub| || (|ua| == |ub| && LexLess(ByteLess, ua, ub))
  }

  lemma KeyLessIsOrder()
    ensures StrictOrder(KeyLess)
  {
    assert StrictOrder(ByteLess);
    forall x: string ensures !KeyLess(x, x) {
      LexTotal(ByteLess, Utf8.Encode(x), Utf8.Encode(x));
    }
    forall x: string, y: string, z: string | KeyLess(x, y) && KeyLess(y, z) ensures KeyLess(x, z) {
      var ux, uy, uz := Utf8.Encode(x), Utf8.Encode(y), Utf8.Encode(z);
      if |ux| == |uy| == |uz| {
        LexTransitive(ByteLess, ux, uy, uz);
      }
    }
    forall x: string, y: string | x != y ensures KeyLess(x, y) || KeyLess(y, x) {
      var ux, uy := Utf8.Encode(x), Utf8.Encode(y);
      if ux == uy {
        Utf8.Injective(x, y);
        assert false;
      } else {
        LexTotal(ByteLess, ux, uy);
      }
    }
  }

  function SortedKeys(keys: set<string>): (r: seq<string>)
    ensures forall k :: k in r <==> k in keys
    ensures |r| == |keys|
    ensures Ascending(KeyLess, r)
  {
    KeyLessIsOrder();
    Enumerate(KeyLess, keys)
  }

  // ---------------------------------------------------------------- the specification

  function MajorOf(v: Value): Major {
    match v
    case Null => 7
    case Bool(_) => 7
    case Num(n) => if n >= 0 then 0 else 1
    case Str(_) => 3
    case Seq(_) => 4
    case Map(_) => 5
  }

  function ArgOf(v: Value): nat {
    match v
    case Null => 22
    case Bool(b) => if b then 21 else 20
    case Num(n) => if n >= 0 then n else -(n + 1)
    case Str(s) => |Utf8.Encode(s)|
    case Seq(items) => |items|
    case Map(m) => |m|
  }

  function Canonical(v: Value): Bytes
    decreases v, 2, 0
  {
    Head(MajorOf(v), ArgOf(v)) + Body(v)
  }

  function Body(v: Value): Bytes
    decreases v, 1, 0
  {
    match v
    case Str(s) => Utf8.Encode(s)
    case Seq(items) => ItemsBytes(items)
    case Map(m) => EntriesBytes(v, SortedKeys(m.Keys))
    case _ => []
  }

  function ItemsBytes(items: seq<Value>): Bytes
    decreases items, 0, 0
  {
    if items == [] then [] else Canonical(items[0]) + ItemsBytes(items[1..])
  }

  function EntriesBytes(whole: Value, keys: seq<string>): Bytes
    requires whole.Map? && forall k :: k in keys ==> k in whole.m
    decreases whole, 0, |keys|
  {
    if keys == [] then []
    else KeyBytes(keys[0]) + (Canonical(whole.m[keys[0]]) + EntriesBytes(whole, keys[1..]))
  }

  // ---------------------------------------------------------------- heads decode

  function Pow256(w: nat): nat {
    if w == 0 then 1 else 256 * Pow256(w - 1)
  }

  function FromBigEndian(b: Bytes): nat {
    if b == [] then 0 else 256 * FromBigEndian(b[..|b| - 1]) + b[|b| - 1]
  }

  lemma {:induction false} BigEndianDecodes(n: nat, w: nat)
    requires n < Pow256(w)
    ensures FromBigEndian(BigEndian(n, w)) == n
  {
    if w > 0 {
      BigEndianDecodes(n / 256, w - 1);
      var b := BigEndian(n, w);
      assert b[..|b| - 1] == BigEndian(n / 256, w - 1);
    }
  }

  lemma {:induction false} FromBigEndianBound(b: Bytes)
    ensures FromBigEndian(b) < Pow256(|b|)
  {
    if b == [] {
    } else {
      FromBigEndianBound(b[..|b| - 1]);
    }
  }

  lemma Powers()
    ensures Pow256(1) == 0x100 && Pow256(2) == 0x1_0000 && Pow256(4) == 0x1_0000_0000 && Pow256(8) == U64_LIMIT
  {
    assert Pow256(3) == 0x100_0000 && Pow256(4) == 0x1_0000_0000;
    assert Pow256(6) == 0x1_0000_0000_0000;
  }

  /** Reads any head section 3 of RFC 8949 allows, shortest or not: major type, argument, length. */
  function DecodeHead(b: Bytes): Option<(nat, nat, nat)> {
    if b == [] then None
    else
      var major, info := b[0] as int / 32, b[0] as int % 32;
      if info < 24 then Some((major, info, 1))
      else if info > 27 then None
      else
        var w := if info == 24 then 1 else if info == 25 then 2 else if info == 26 then 4 else 8;
        if |b| <= w then None else Some((major, FromBigEndian(b[1..1 + w]), 1 + w))
  }

  lemma HeadDecodes(major: Major, arg: nat, rest: Bytes)
    requires arg < U64_LIMIT
    ensures DecodeHead(Head(major, arg) + rest) == Some((major as nat, arg, |Head(major, arg)|))
  {
    var h := Head(major, arg);
    var w := Width(arg);
    var b := h + rest;
    assert b[0] == h[0];
    if w > 0 {
      Powers();
      BigEndianDecodes(arg, w);
      assert b[1..1 + w] == BigEndian(arg, w);
    }
  }

  /** The encoder's head is the shortest of all heads that carry the same major type and argument. */
  lemma HeadIsShortest(b: Bytes)
    requires DecodeHead(b).Some? && DecodeHead(b).value.0 < 8
    ensures |Head(DecodeHead(b).value.0, DecodeHead(b).value.1)| <= DecodeHead(b).value.2
  {
    Powers();
    var (major, arg, len) := DecodeHead(b).value;
    FromBigEndianBound(b[1..len]);
  }

  lemma HeadPrefixFree(major1: Major, arg1: nat, major2: Major, arg2: nat, r1: Bytes, r2: Bytes)
    requires arg1 < U64_LIMIT && arg2 < U64_LIMIT
    requires Head(major1, arg1) + r1 == Head(major2, arg2) + r2
    ensures major1 == major2 && arg1 == arg2 && r1 == r2
  {
    HeadDecodes(major1, arg1, r1);
    HeadDecodes(major2, arg2, r2);
    SplitAfter(Head(major1, arg1), r1);
    SplitAfter(Head(major2, arg2), r2);
  }

  lemma SplitAfter<T>(a: seq<T>, b: seq<T>)
    ensures (a + b)[..|a|] == a && (a + b)[|a|..] == b
  {
  }

  // ---------------------------------------------------------------- prefix-freeness and injectivity

  lemma KeyPrefixFree(k: string, j: string, r1: Bytes, r2: Bytes)
    requires FitsText(k) && FitsText(j)
    requires KeyBytes(k) + r1 == KeyBytes(j) + r2
    ensures k == j && r1 == r2
  {
    var uk, uj := Utf8.Encode(k), Utf8.Encode(j);
    Append(Head(3, |uk|), uk, r1);
    Append(Head(3, |uj|), uj, r2);
    HeadPrefixFree(3, |uk|, 3, |uj|, uk + r1, uj + r2);
    SplitAfter(uk, r1);
    SplitAfter(uj, r2);
    Utf8.Injective(k, j);
  }

  lemma FitsArg(v: Value)
    requires Fits(v)
    ensures ArgOf(v) < U64_LIMIT
  {
  }

  lemma HeadsAgree(v: Value, w: Value, r1: Bytes, r2: Bytes)
    requires Fits(v) && Fits(w)
    requires Canonical(v) + r1 == Canonical(w) + r2
    ensures MajorOf(v) == MajorOf(w) && ArgOf(v) == ArgOf(w)
    ensures Body(v) + r1 == Body(w) + r2
  {
    FitsArg(v);
    FitsArg(w);
    Append(Head(MajorOf(v), ArgOf(v)), Body(v), r1);
    Append(Head(MajorOf(w), ArgOf(w)), Body(w), r2);
    HeadPrefixFree(MajorOf(v), ArgOf(v), MajorOf(w), ArgOf(w), Body(v) + r1, Body(w) + r2);
  }

  lemma TextPrefixFree(s: string, t: string, r1: Bytes, r2: Bytes)
    requires |Utf8.Encode(s)| == |Utf8.Encode(t)|
    requires Utf8.Encode(s) + r1 == Utf8.Encode(t) + r2
    ensures s == t && r1 == r2
  {
    SplitAfter(Utf8.Encode(s), r1);
    SplitAfter(Utf8.Encode(t), r2);
    Utf8.Injective(s, t);
  }

  /** No canonical encoding is a proper prefix of another, and equal encodings come from equal values. */
  lemma {:induction false} PrefixFree(v: Value, w: Value, r1: Bytes, r2: Bytes)
    requires Fits(v) && Fits(w)
    requires Canonical(v) + r1 == Canonical(w) + r2
    ensures v == w && r1 == r2
    decreases v, 1, 0
  {
    HeadsAgree(v, w, r1, r2);
    match v {
      case Str(s) =>
        TextPrefixFree(s, w.s, r1, r2);
      case Seq(items) =>
        ItemsPrefixFree(items, w.items, r1, r2);
      case Map(m) =>
        EntriesPrefixFree(v, w, SortedKeys(m.Keys), SortedKeys(w.m.Keys), r1, r2);
        SameEntries(m, w.m);
      case _ =>
        assert [] + r1 == r1 && [] + r2 == r2;
    }
  }

  lemma SameEntries(m: map<string, Value>, n: map<string, Value>)
    requires SortedKeys(m.Keys) == SortedKeys(n.Keys)
    requires forall k :: k in SortedKeys(m.Keys) ==> k in m && k in n && m[k] == n[k]
    ensures m == n
  {
    assert forall k :: k in m.Keys <==> k in SortedKeys(m.Keys);
    assert m.Keys == n.Keys;
  }

  lemma {:induction false} ItemsPrefixFree(xs: seq<Value>, ys: seq<Value>, r1: Bytes, r2: Bytes)
    requires |xs| == |ys|
    requires (forall x :: x in xs ==> Fits(x)) && (forall y :: y in ys ==> Fits(y))
    requires ItemsBytes(xs) + r1 == ItemsBytes(ys) + r2
    ensures xs == ys && r1 == r2
    decreases xs, 0, 0
  {
    if xs == [] {
      assert ItemsBytes(xs) + r1 == r1 && ItemsBytes(ys) + r2 == r2;
    } else {
      Append(Canonical(xs[0]), ItemsBytes(xs[1..]), r1);
      Append(Canonical(ys[0]), ItemsBytes(ys[1..]), r2);
      PrefixFree(xs[0], ys[0], ItemsBytes(xs[1..]) + r1, ItemsBytes(ys[1..]) + r2);
      ItemsPrefixFree(xs[1..], ys[1..], r1, r2);
      assert xs == [xs[0]] + xs[1..] && ys == [ys[0]] + ys[1..];
    }
  }

  lemma {:induction false} EntriesPrefixFree(v: Value, w: Value, ks: seq<string>, js: seq<string>, r1: Bytes, r2: Bytes)
    requires v.Map? && w.Map? && Fits(v) && Fits(w)
    requires (forall k :: k in ks ==> k in v.m) && (forall k :: k in js ==> k in w.m)
    requires |ks| == |js|
    requires EntriesBytes(v, ks) + r1 == EntriesBytes(w, js) + r2
    ensures ks == js && r1 == r2
    ensures forall k :: k in ks ==> v.m[k] == w.m[k]
    decreases v, 0, |ks|
  {
    if ks == [] {
      assert EntriesBytes(v, ks) + r1 == r1 && EntriesBytes(w, js) + r2 == r2;
    } else {
      var t1, t2 := EntriesBytes(v, ks[1..]), EntriesBytes(w, js[1..]);
      var c1, c2 := Canonical(v.m[ks[0]]), Canonical(w.m[js[0]]);
      Append(KeyBytes(ks[0]), c1 + t1, r1);
      Append(KeyBytes(js[0]), c2 + t2, r2);
      KeyPrefixFree(ks[0], js[0], (c1 + t1) + r1, (c2 + t2) + r2);
      Append(c1, t1, r1);
      Append(c2, t2, r2);
      PrefixFree(v.m[ks[0]], w.m[js[0]], t1 + r1, t2 + r2);
      EntriesPrefixFree(v, w, ks[1..], js[1..], r1, r2);
      assert ks == [ks[0]] + ks[1..] && js == [js[0]] + js[1..];
    }
  }

  lemma Injective(v: Value, w: Value)
    requires Fits(v) && Fits(w)
    requires Canonical(v) == Canonical(w)
    ensures v == w
  {
    assert Canonical(v) + [] == Canonical(w) + [];
    PrefixFree(v, w, [], []);
  }

  // ---------------------------------------------------------------- keys sort by their encoded bytes

  lemma {:induction false} LexCommonPrefix(p: Bytes, a: Bytes, b: Bytes)
    ensures LexLess(ByteLess, p + a, p + b) <==> LexLess(ByteLess, a, b)
  {
    if p == [] {
      assert p + a == a && p + b == b;
    } else {
      LexCommonPrefix(p[1..], a, b);
      assert (p + a)[1..] == p[1..] + a && (p + b)[1..] == p[1..] + b;
    }
  }

  lemma {:induction false} LexExtends(a: Bytes, b: Bytes, r1: Bytes, r2: Bytes)
    requires |a| == |b|
    requires LexLess(ByteLess, a, b)
    ensures LexLess(ByteLess, a + r1, b + r2)
  {
    assert (a + r1)[1..] == a[1..] + r1 && (b + r2)[1..] == b[1..] + r2;
    if a[0] == b[0] {
      LexExtends(a[1..], b[1..], r1, r2);
    }
  }

  lemma {:induction false} BigEndianMonotone(x: nat, y: nat, w: nat)
    requires x < y < Pow256(w)
    ensures LexLess(ByteLess, BigEndian(x, w), BigEndian(y, w))
  {
    if x / 256 < y / 256 {
      BigEndianMonotone(x / 256, y / 256, w - 1);
      LexExtends(BigEndian(x / 256, w - 1), BigEndian(y / 256, w - 1), [x % 256], [y % 256]);
    } else {
      LexCommonPrefix(BigEndian(x / 256, w - 1), [x % 256], [y % 256]);
    }
  }

  lemma HeadMonotone(major: Major, x: nat, y: nat, r1: Bytes, r2: Bytes)
    requires x < y < U64_LIMIT
    ensures LexLess(ByteLess, Head(major, x) + r1, Head(major, y) + r2)
  {
    Powers();
    var hx, hy := Head(major, x), Head(major, y);
    assert (hx + r1)[0] == hx[0] && (hy + r2)[0] == hy[0];
    if Width(x) == Width(y) && Width(x) > 0 {
      BigEndianMonotone(x, y, Width(x));
      LexCommonPrefix([hx[0]], BigEndian(x, Width(x)), BigEndian(y, Width(y)));
      LexExtends(hx, hy, r1, r2);
    }
  }

  /** The order of map entries is the bytewise order of their encoded keys. */
  lemma KeyOrderIsBytewise(a: string, b: string)
    requires FitsText(a) && FitsText(b)
    ensures KeyLess(a, b) <==> LexLess(ByteLess, KeyBytes(a), KeyBytes(b))
  {
    var ua, ub := Utf8.Encode(a), Utf8.Encode(b);
    if |ua| == |ub| {
      LexCommonPrefix(Head(3, |ua|), ua, ub);
    } else if |ua| < |ub| {
      HeadMonotone(3, |ua|, |ub|, ua, ub);
    } else {
      HeadMonotone(3, |ub|, |ua|, ub, ua);
      LexAsymmetric(KeyBytes(b), KeyBytes(a));
    }
  }

  lemma LexAsymmetric(a: Bytes, b: Bytes)
    requires LexLess(ByteLess, a, b)
    ensures !LexLess(ByteLess, b, a)
  {
    if LexLess(ByteLess, b, a) {
      LexTransitive(ByteLess, a, b, a);
      LexTotal(ByteLess, a, a);
      assert false;
    }
  }
}
