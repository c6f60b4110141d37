/**
 * The formats themselves, byte by byte (crates/allod-core/src/canon.rs, crates/allod-core/src/hash.rs,
 * crates/allod-core/src/model.rs): what the canonical bytes of each value are, what text stands for a digest,
 * and which bytes each hash is taken of. Two parties that disagree on any of this agree on no hash.
 */
module Formats {
  import opened Text
  import opened Values
  import opened Order
  import opened Canon
  import opened Hashing
  import opened Merkle
  import opened Model
  import Objects
  import Utf8

  // ---------------------------------------------------------------- order

  /** Up to some place they agree; there the first ends, or has the smaller element. */
  ghost predicate Earlier<T>(less: (T, T) -> bool, a: seq<T>, b: seq<T>, i: int) {
    0 <= i < |b| && i <= |a| && a[..i] == b[..i] && (i == |a| || less(a[i], b[i]))
  }

  lemma {:induction false} LexIs<T(!new)>(less: (T, T) -> bool, a: seq<T>, b: seq<T>)
    ensures LexLess(less, a, b) <==> exists i :: Earlier(less, a, b, i)
  {
    if b == [] {
    } else if a == [] {
      assert Earlier(less, a, b, 0);
    } else {
      LexIs(less, a[1..], b[1..]);
      if less(a[0], b[0]) {
        assert Earlier(less, a, b, 0);
      }
      if a[0] == b[0] {
        EarlierLater(less, a, b);
      }
      if i :| Earlier(less, a, b, i) {
        assert i > 0 ==> a[..i][0] == b[..i][0];
      }
    }
  }

  lemma EarlierLater<T(!new)>(less: (T, T) -> bool, a: seq<T>, b: seq<T>)
    requires a != [] && b != [] && a[0] == b[0]
    ensures (exists i :: Earlier(less, a[1..], b[1..], i)) ==> exists i :: Earlier(less, a, b, i)
    ensures (exists i :: Earlier(less, a, b, i)) ==> less(a[0], b[0]) || exists i :: Earlier(less, a[1..], b[1..], i)
  {
    if i :| Earlier(less, a[1..], b[1..], i) {
      assert a[..i + 1] == [a[0]] + a[1..][..i] && b[..i + 1] == [b[0]] + b[1..][..i];
      assert Earlier(less, a, b, i + 1);
    }
    if i :| Earlier(less, a, b, i) {
      if i > 0 {
        assert a[1..][..i - 1] == a[..i][1..] && b[1..][..i - 1] == b[..i][1..];
        assert Earlier(less, a[1..], b[1..], i - 1);
      }
    }
  }

  /** Strings are ordered by the first character that differs, and a prefix comes before what it begins. */
  lemma StringOrder(a: string, b: string)
    ensures StringLess(a, b) <==> exists i :: 0 <= i < |b| && i <= |a| && a[..i] == b[..i] && (i == |a| || a[i] < b[i])
  {
    LexIs(CharLess, a, b);
    hide LexLess;
    if i :| Earlier(CharLess, a, b, i) {
    }
    if i :| 0 <= i < |b| && i <= |a| && a[..i] == b[..i] && (i == |a| || a[i] < b[i]) {
      assert Earlier(CharLess, a, b, i);
    }
  }

  // ---------------------------------------------------------------- canonical bytes

  ghost function Concat(parts: seq<Bytes>): Bytes {
    if parts == [] then [] else parts[0] + Concat(parts[1..])
  }

  /** The bytes of an item: what follows a head of the major type and argument of section 3.1 of RFC 8949. */
  ghost predicate Follows(v: Value, major: nat, arg: nat, rest: Bytes) {
    var b := Canonical(v);
    DecodeHead(b).Some? && DecodeHead(b).value.0 == major && DecodeHead(b).value.1 == arg
    && DecodeHead(b).value.2 <= |b| && b[DecodeHead(b).value.2..] == rest
  }

  lemma CanonicalHead(v: Value)
    requires Fits(v)
    ensures Follows(v, MajorOf(v) as nat, ArgOf(v), Body(v))
  {
    FitsArg(v);
    HeadDecodes(MajorOf(v), ArgOf(v), Body(v));
    var h := Head(MajorOf(v), ArgOf(v));
    assert Canonical(v) == h + Body(v) && (h + Body(v))[|h|..] == Body(v);
  }

  lemma {:induction false} ItemsConcat(items: seq<Value>)
    ensures ItemsBytes(items) == Concat(seq(|items|, i requires 0 <= i < |items| => Canonical(items[i])))
  {
    var parts := seq(|items|, i requires 0 <= i < |items| => Canonical(items[i]));
    if items == [] {
    } else {
      ItemsConcat(items[1..]);
      assert parts[1..] == seq(|items[1..]|, i requires 0 <= i < |items[1..]| => Canonical(items[1..][i]));
      hide Canonical;
    }
  }

  /** An entry: the key as a text item, then the value. */
  ghost function Entry(m: map<string, Value>, k: string): Bytes
    requires k in m
  {
    Canonical(Str(k)) + Canonical(m[k])
  }

  lemma ConcatCons(first: Bytes, parts: seq<Bytes>)
    ensures Concat([first] + parts) == first + Concat(parts)
  {
    assert ([first] + parts)[1..] == parts;
  }

  lemma {:induction false} EntriesConcat(m: map<string, Value>, keys: seq<string>)
    requires forall k :: k in keys ==> k in m
    ensures EntriesBytes(Map(m), keys) == EntriesInOrder(m, keys)
  {
    if keys == [] {
    } else {
      EntriesConcat(m, keys[1..]);
      KeyIsText(keys[0]);
      EntriesCons(m, keys);
      var rest := EntriesBytes(Map(m), keys[1..]);
      assert EntriesBytes(Map(m), keys) == KeyBytes(keys[0]) + (Canonical(m[keys[0]]) + rest);
      hide Canonical, KeyBytes, EntriesInOrder, EntriesBytes;
      Append(KeyBytes(keys[0]), Canonical(m[keys[0]]), rest);
    }
  }

  lemma EntriesCons(m: map<string, Value>, keys: seq<string>)
    requires keys != [] && keys[0] in m
    ensures EntriesInOrder(m, keys) == Entry(m, keys[0]) + EntriesInOrder(m, keys[1..])
  {
    hide Concat, Entry;
    var parts := seq(|keys|, i requires 0 <= i < |keys| => if keys[i] in m then Entry(m, keys[i]) else []);
    var rest := seq(|keys[1..]|, i requires 0 <= i < |keys[1..]| => if keys[1..][i] in m then Entry(m, keys[1..][i]) else []);
    assert parts == [Entry(m, keys[0])] + rest;
    ConcatCons(Entry(m, keys[0]), rest);
  }

  /** The entries of these keys one after another. */
  ghost function EntriesInOrder(m: map<string, Value>, keys: seq<string>): Bytes {
    Concat(seq(|keys|, i requires 0 <= i < |keys| => if keys[i] in m then Entry(m, keys[i]) else []))
  }

  lemma KeyIsText(k: string)
    ensures KeyBytes(k) == Canonical(Str(k))
  {
  }

  /**
   * Sections 3.1 and 3.3 of RFC 8949: null, false and true are simple values 22, 20 and 21; a number is its
   * value or one less than its negation; texts, lists and maps say how long they are and are followed by their
   * parts, the entries of a map in ascending order of their keys.
   */
  lemma CanonicalIs(v: Value)
    requires Fits(v)
    ensures v == Null ==> Follows(v, 7, 22, [])
    ensures v == Bool(false) ==> Follows(v, 7, 20, [])
    ensures v == Bool(true) ==> Follows(v, 7, 21, [])
    ensures v.Num? && v.n >= 0 ==> Follows(v, 0, v.n, [])
    ensures v.Num? && v.n < 0 ==> Follows(v, 1, -1 - v.n, [])
    ensures v.Str? ==> Follows(v, 3, |Utf8.Encode(v.s)|, Utf8.Encode(v.s))
    ensures v.Seq? ==> Follows(v, 4, |v.items|, Concat(seq(|v.items|, i requires 0 <= i < |v.items| => Canonical(v.items[i]))))
    ensures v.Map? ==> exists keys :: InKeyOrder(v.m, keys) && Follows(v, 5, |v.m|, EntriesInOrder(v.m, keys))
  {
    CanonicalHead(v);
    hide Follows, Canonical, ItemsBytes, EntriesBytes, Utf8.Encode, Fits;
    if v.Seq? {
      ItemsConcat(v.items);
    }
    if v.Map? {
      CanonicalMap(v.m);
    }
    hide SortedKeys;
  }

  lemma CanonicalMap(m: map<string, Value>)
    requires Fits(Map(m))
    ensures exists keys :: InKeyOrder(m, keys) && Follows(Map(m), 5, |m|, EntriesInOrder(m, keys))
  {
    var keys := SortedKeys(m.Keys);
    CanonicalHead(Map(m));
    EntriesConcat(m, keys);
    KeysOrdered(m, keys);
    assert Body(Map(m)) == EntriesBytes(Map(m), keys);
    assert MajorOf(Map(m)) == 5 && ArgOf(Map(m)) == |m|;
    assert keys == SortedKeys(m.Keys);
    hide *;
  }

  /** Every key once; a key of fewer bytes first, and among equally many the bytewise smaller. */
  ghost predicate InKeyOrder(m: map<string, Value>, keys: seq<string>) {
    && (forall k :: k in keys <==> k in m)
    && forall i, j :: 0 <= i < j < |keys| ==> KeyBefore(Utf8.Encode(keys[i]), Utf8.Encode(keys[j]))
  }

  ghost predicate KeyBefore(a: Bytes, b: Bytes) {
    |a| < |b| || (|a| == |b| && exists i :: 0 <= i < |a| && a[..i] == b[..i] && a[i] < b[i])
  }

  lemma KeyBeforeIs(a: string, b: string)
    ensures KeyLess(a, b) <==> KeyBefore(Utf8.Encode(a), Utf8.Encode(b))
  {
    var x, y := Utf8.Encode(a), Utf8.Encode(b);
    LexIs(ByteLess, x, y);
    hide LexLess, Utf8.Encode;
    if i :| Earlier(ByteLess, x, y, i) && |x| == |y| {
      assert i < |x|;
    }
    if i :| 0 <= i < |x| && |x| == |y| && x[..i] == y[..i] && x[i] < y[i] {
      assert Earlier(ByteLess, x, y, i);
    }
  }

  lemma KeysOrdered(m: map<string, Value>, keys: seq<string>)
    requires keys == SortedKeys(m.Keys)
    ensures InKeyOrder(m, keys)
  {
    hide KeyLess, KeyBefore, SortedKeys, Utf8.Encode;
    forall i, j | 0 <= i < j < |keys| ensures KeyBefore(Utf8.Encode(keys[i]), Utf8.Encode(keys[j])) {
      KeyBeforeIs(keys[i], keys[j]);
    }
  }

  // ---------------------------------------------------------------- digests as text

  const HEX := "0123456789abcdef"

  /** The two digits of a byte, the more significant first. */
  ghost function Digits(n: Byte): string {
    [HEX[n / 16], HEX[n % 16]]
  }

  lemma HexCons(b: Bytes)
    requires b != []
    ensures |HexString(b)| == 2 + |HexString(b[1..])| == 2 * |b| && |Digits(b[0])| == 2
    ensures HexString(b)[0] == Digits(b[0])[0] && HexString(b)[1] == Digits(b[0])[1]
    ensures forall j :: 0 <= j < |HexString(b[1..])| ==> HexString(b)[j + 2] == HexString(b[1..])[j]
  {
    HexDecodes(b);
    HexDecodes(b[1..]);
    DigitIs(b[0] / 16);
    DigitIs(b[0] % 16);
    hide HEX, HexDigit, HexDecode;
  }

  lemma {:induction false} HexIs(b: Bytes, i: nat)
    requires i < |b|
    ensures |HexString(b)| == 2 * |b| && |Digits(b[i])| == 2
    ensures HexString(b)[2 * i] == Digits(b[i])[0] && HexString(b)[2 * i + 1] == Digits(b[i])[1]
  {
    hide HexString, Digits;
    HexCons(b);
    if i > 0 {
      HexIs(b[1..], i - 1);
      assert b[1..][i - 1] == b[i];
    }
  }

  lemma DigitIs(n: nat)
    requires n < 16
    ensures HexDigit(n) == HEX[n]
  {
    assert forall k: nat :: k < 10 ==> HEX[k] as int == 48 + k;
    assert forall k: nat :: 10 <= k < 16 ==> HEX[k] as int == 87 + k;
  }

  /** A digest as text: `sha256:`, then two digits a byte. */
  lemma RenderIs(d: Digest, i: nat)
    requires i < 32
    ensures |Render(d)| == 71 && Render(d)[..7] == "sha256:" && Render(d)[7 + 2 * i..9 + 2 * i] == Digits(d[i])
  {
    HexIs(d, i);
    hide HexString, Digits;
    var prefix, hex := "sha256:", HexString(d);
    assert |prefix| == 7 && Render(d) == prefix + hex && |hex| == 64;
    Sliced(prefix, hex, 2 * i, Digits(d[i]));
  }

  lemma Sliced(a: string, b: string, at: nat, pair: string)
    requires |a| == 7 && at + 2 <= |b| && |pair| == 2 && b[at] == pair[0] && b[at + 1] == pair[1]
    ensures (a + b)[..7] == a && (a + b)[7 + at..9 + at] == pair
  {
  }

  /** A hash is the text of the digest of `allod:`, the domain, a colon, and the payload. */
  lemma HashText(sha: Sha, domain: string, payload: Bytes)
    ensures Sha256Hex(sha, domain, payload) == Render(sha(Utf8.Encode("allod:") + (Utf8.Encode(domain) + ([58] + payload))))
  {
    TagShape(domain, payload);
    hide Render, Tagged, Utf8.Encode;
  }

  // ---------------------------------------------------------------- trees

  /** A parent is the hash of its children's digests, left before right. */
  lemma ParentText(sha: Sha, domain: string, l: Digest, r: Digest)
    ensures Parent(sha, domain, Render(l), Render(r)) == Some(Sha256Hex(sha, domain, l + r))
  {
    RenderParses(l);
    RenderParses(r);
  }

  lemma RootOfTwo(sha: Sha, domain: string, a: string, b: string)
    requires Parent(sha, domain, a, b).Some?
    ensures Root(sha, domain, [a, b]) == Parent(sha, domain, a, b)
  {
    hide Parent;
    var p := Parent(sha, domain, a, b).value;
    assert [a, b][2..] == [];
    assert NextLevel(sha, domain, []) == Some([]);
    assert NextLevel(sha, domain, [a, b]) == Some([p] + []);
    assert [p] + [] == [p];
  }

  lemma RootOfThree(sha: Sha, domain: string, a: string, b: string, c: string)
    requires Parent(sha, domain, a, b).Some?
    ensures Root(sha, domain, [a, b, c]) == Root(sha, domain, [Parent(sha, domain, a, b).value, c])
  {
    hide Parent;
    var p := Parent(sha, domain, a, b).value;
    assert [a, b, c][2..] == [c];
    assert NextLevel(sha, domain, [c]) == Some([c]);
    assert NextLevel(sha, domain, [a, b, c]) == Some([p] + [c]);
    assert [p] + [c] == [p, c];
  }

  /** One leaf is the root, two have it as parent, and of three the last is promoted. */
  lemma SmallTrees(sha: Sha, domain: string, a: Digest, b: Digest, c: Digest)
    ensures Root(sha, domain, [Render(a)]) == Some(Render(a))
    ensures Root(sha, domain, [Render(a), Render(b)]) == Some(Sha256Hex(sha, domain, a + b))
    ensures Root(sha, domain, [Render(a), Render(b), Render(c)]) == Some(Sha256Hex(sha, domain, sha(Tagged(domain, a + b)) + c))
  {
    var ab := sha(Tagged(domain, a + b));
    assert Sha256Hex(sha, domain, a + b) == Render(ab);
    ParentText(sha, domain, a, b);
    ParentText(sha, domain, ab, c);
    hide Parent, Tagged, Render, Sha256Hex;
    RootOfTwo(sha, domain, Render(a), Render(b));
    RootOfTwo(sha, domain, Render(ab), Render(c));
    RootOfThree(sha, domain, Render(a), Render(b), Render(c));
  }

  // ---------------------------------------------------------------- objects, changesets, states

  /** A revision is the hash of the object without its own `rev`; a leaf of the operations tree that of one operation, in order. */
  lemma LeavesAre(sha: Sha, m: map<string, Value>, ops: seq<Value>)
    ensures RevisionHash(sha, Map(m)) == HashValue(sha, "object", Map(m - {"rev"}))
    ensures OpLeaves(sha, ops) == seq(|ops|, i requires 0 <= i < |ops| => HashValue(sha, "op-leaf", ops[i]))
  {
    hide Canonical;
  }

  /** What stands for the changeset in its hash. */
  ghost predicate Covers(sha: Sha, m: map<string, Value>, root: string, pre: map<string, Value>) {
    && (forall k :: k !in {"hash", "signature", "operations", "intent", "intent_hash"} ==> Get(Map(pre), k) == Get(Map(m), k))
    && "hash" !in pre && "signature" !in pre && Get(Map(pre), "operations") == Some(Str(root))
    && (if GetStr(Map(m), "intent").Some? then
          Get(Map(pre), "intent") == Some(Str(Sha256Hex(sha, "intent", Utf8.Encode(GetStr(Map(m), "intent").value))))
          && Get(Map(pre), "intent_hash") == Get(Map(m), "intent_hash")
        else if GetStr(Map(m), "intent_hash").Some? then Get(Map(pre), "intent") == Get(Map(m), "intent_hash") && "intent_hash" !in pre
        else Get(Map(pre), "intent") == Get(Map(m), "intent") && Get(Map(pre), "intent_hash") == Get(Map(m), "intent_hash"))
  }

  lemma PreimageCovers(sha: Sha, m: map<string, Value>, root: string)
    ensures Covers(sha, m, root, Preimage(sha, m, root))
  {
    PreimageParts(sha, m, root);
    hide Preimage, Sha256Hex, Utf8.Encode;
  }

  /**
   * A changeset's hash is taken of the changeset with the root of its operations for the operations and the
   * hash of its intent for the intent, without hash and signature; it has one when it has an operation.
   */
  lemma ChangesetHashIs(sha: Sha, m: map<string, Value>, ops: seq<Value>)
    requires GetSeq(Map(m), "operations") == Some(ops) && ops != []
    ensures Root(sha, "op-node", OpLeaves(sha, ops)).Some?
    ensures var root := Root(sha, "op-node", OpLeaves(sha, ops)).value;
            exists pre :: Covers(sha, m, root, pre) && ChangesetHash(sha, Map(m)) == Ok((HashValue(sha, "changeset", Map(pre)), root))
  {
    RootOfLeaves(sha, OPERATIONS, Payloads(ops));
    var root := Root(sha, "op-node", OpLeaves(sha, ops)).value;
    PreimageCovers(sha, m, root);
    hide Preimage, Covers, Root, OpLeaves, HashValue;
  }

  /** The state hash is the root over one entry an object, in ascending order of kind and id. */
  lemma StateHashIs(sha: Sha, s: Objects.Objects)
    ensures exists keys :: InStateOrder(s, keys) && StateHash(sha, s) == Root(sha, "state-node", LeavesInOrder(sha, s, keys))
  {
    var keys := Objects.InOrder(s.Keys);
    LeavesAreInOrder(sha, s, keys);
    hide Root, Objects.InOrder, StateLeaves, LeavesInOrder, EntriesOf;
  }

  lemma LeavesAreInOrder(sha: Sha, s: Objects.Objects, keys: seq<Objects.Key>)
    requires forall k :: k in keys ==> k in s
    ensures StateLeaves(sha, EntriesOf(s, keys)) == LeavesInOrder(sha, s, keys)
  {
    var entries := EntriesOf(s, keys);
    forall i | 0 <= i < |keys| ensures entries[i] == EntryOf(keys[i], s[keys[i]]) {
      EntryIs(s, keys[i]);
    }
    hide EntryAt, EntryOf, EntriesOf, Canonical;
  }

  lemma EntryIs(s: Objects.Objects, k: Objects.Key)
    requires k in s
    ensures EntryAt(s, k) == EntryOf(k, s[k])
  {
  }

  /** An entry says kind, id and revision, and of a deleted object that it is. */
  ghost function EntryOf(k: Objects.Key, o: Objects.Obj): Value {
    if o.deleted then Map(map["kind" := Str(k.0), "id" := Str(k.1), "rev" := Str(o.rev), "deleted" := Bool(true)])
    else Map(map["kind" := Str(k.0), "id" := Str(k.1), "rev" := Str(o.rev)])
  }

  ghost function LeavesInOrder(sha: Sha, s: Objects.Objects, keys: seq<Objects.Key>): seq<string> {
    seq(|keys|, i requires 0 <= i < |keys| => if keys[i] in s then HashValue(sha, "state-leaf", EntryOf(keys[i], s[keys[i]])) else "")
  }

  ghost predicate InStateOrder(s: Objects.Objects, keys: seq<Objects.Key>) {
    && (forall k :: k in keys <==> k in s)
    && forall i, j :: 0 <= i < j < |keys| ==> StringLess(keys[i].0, keys[j].0) || (keys[i].0 == keys[j].0 && StringLess(keys[i].1, keys[j].1))
  }
}
