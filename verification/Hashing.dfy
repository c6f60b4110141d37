/**
 * Domain-separated hashing and the textual form of digests (crates/allod-core/src/hash.rs:31-83).
 * SHA-256 itself is a parameter; nothing is assumed about it beyond the length of its digests.
 */
module Hashing {
  import opened Text
  import opened Values
  import opened Canon
  import Utf8

  type Digest = d: Bytes | |d| == 32 witness seq(32, i => 0)

  type Sha = Bytes -> Digest

  /** No two of the preimages in play collide. */
  ghost predicate CollisionFree(sha: Sha, preimages: set<Bytes>) {
    forall x, y :: x in preimages && y in preimages && sha(x) == sha(y) ==> x == y
  }

  // ---------------------------------------------------------------- domains

  function Tagged(domain: string, payload: Bytes): Bytes {
    Utf8.Encode("allod:" + domain + ":") + payload
  }

  lemma SplitAtMark(a: Bytes, b: Bytes, mark: Byte, p: Bytes, q: Bytes)
    requires mark !in a && mark !in b
    requires a + ([mark] + p) == b + ([mark] + q)
    ensures a == b && p == q
  {
    var l, r := a + ([mark] + p), b + ([mark] + q);
    assert l[|a|] == mark && r[|b|] == mark;
    assert (forall i :: 0 <= i < |a| ==> l[i] == a[i]) && (forall i :: 0 <= i < |b| ==> r[i] == b[i]);
    assert |a| == |b|;
    assert a == l[..|a|] && b == r[..|b|];
    assert p == l[|a| + 1..] && q == r[|b| + 1..];
  }

  lemma TagShape(domain: string, payload: Bytes)
    ensures Tagged(domain, payload) == Utf8.Encode("allod:") + (Utf8.Encode(domain) + ([58] + payload))
  {
    var u, d := Utf8.Encode("allod:"), Utf8.Encode(domain);
    Utf8.Concat("allod:" + domain, ":");
    Utf8.Concat("allod:", domain);
    assert Utf8.Encode(":") == Utf8.EncodeChar(':') + Utf8.Encode(":"[1..]);
    assert Utf8.Encode(":") == [58];
    Append(u + d, [58], payload);
    Append(u, d, [58] + payload);
  }

  /** A tagged payload determines its domain and its payload, for domains without a colon. */
  lemma TagInjective(d1: string, d2: string, p1: Bytes, p2: Bytes)
    requires ':' !in d1 && ':' !in d2
    requires Tagged(d1, p1) == Tagged(d2, p2)
    ensures d1 == d2 && p1 == p2
  {
    TagShape(d1, p1);
    TagShape(d2, p2);
    var u := Utf8.Encode("allod:");
    SplitAfter(u, Utf8.Encode(d1) + ([58] + p1));
    SplitAfter(u, Utf8.Encode(d2) + ([58] + p2));
    Utf8.AsciiOccurs(d1, ':');
    Utf8.AsciiOccurs(d2, ':');
    SplitAtMark(Utf8.Encode(d1), Utf8.Encode(d2), 58, p1, p2);
    Utf8.Injective(d1, d2);
  }

  // ---------------------------------------------------------------- hexadecimal

  function HexDigit(n: nat): char
    requires n < 16
  {
    if n < 10 then (48 + n) as char else (87 + n) as char
  }

  function HexString(b: Bytes): string {
    if b == [] then "" else [HexDigit(b[0] / 16), HexDigit(b[0] % 16)] + HexString(b[1..])
  }

  function DigitValue(c: char): (r: Option<nat>)
    ensures r.Some? ==> r.value < 16
  {
    if '0' <= c <= '9' then Some(c as int - '0' as int)
    else if 'a' <= c <= 'f' then Some(c as int - 'a' as int + 10)
    else if 'A' <= c <= 'F' then Some(c as int - 'A' as int + 10)
    else None
  }

  /** `u8::from_str_radix(pair, 16)`: upper case and a leading plus sign are accepted. */
  function PairValue(hi: char, lo: char): (r: Option<nat>)
    ensures r.Some? ==> r.value < 256
  {
    match DigitValue(lo)
    case None => None
    case Some(l) =>
      if hi == '+' then Some(l)
      else
        match DigitValue(hi)
        case None => None
        case Some(h) => Some(16 * h + l)
  }

  function HexDecode(s: string): (r: Option<Bytes>)
    requires |s| % 2 == 0
    ensures r.Some? ==> |r.value| == |s| / 2
  {
    if s == [] then Some([])
    else
      match PairValue(s[0], s[1])
      case None => None
      case Some(b) =>
        match HexDecode(s[2..])
        case None => None
        case Some(rest) => Some([b] + rest)
  }

  lemma PairDecodes(n: Byte)
    ensures PairValue(HexDigit(n / 16), HexDigit(n % 16)) == Some(n)
  {
  }

  lemma {:induction false} HexDecodes(b: Bytes)
    ensures |HexString(b)| == 2 * |b|
    ensures HexDecode(HexString(b)) == Some(b)
  {
    if b == [] {
    } else {
      HexDecodes(b[1..]);
      var pair := [HexDigit(b[0] / 16), HexDigit(b[0] % 16)];
      SplitAfter(pair, HexString(b[1..]));
      PairDecodes(b[0]);
      assert HexString(b)[0] == pair[0] && HexString(b)[1] == pair[1];
      assert b == [b[0]] + b[1..];
    }
  }

  function Render(d: Digest): string {
    "sha256:" + HexString(d)
  }

  /** Parse `sha256:<hex>` back to the raw digest. */
  function DigestBytes(hash: string): Option<Digest> {
    match StripPrefix(hash, "sha256:")
    case None => None
    case Some(hex) => if |hex| != 64 then None else HexDecode(hex)
  }

  lemma RenderParses(d: Digest)
    ensures DigestBytes(Render(d)) == Some(d)
  {
    HexDecodes(d);
    SplitAfter("sha256:", HexString(d));
  }

  lemma RenderFits(d: Digest)
    ensures FitsText(Render(d))
  {
    HexDecodes(d);
    Utf8.AtMostFour(Render(d));
  }

  lemma RenderInjective(d: Digest, e: Digest)
    requires Render(d) == Render(e)
    ensures d == e
  {
    RenderParses(d);
    RenderParses(e);
  }

  // ---------------------------------------------------------------- hashes

  function Sha256Hex(sha: Sha, domain: string, payload: Bytes): string {
    Render(sha(Tagged(domain, payload)))
  }

  /** `hash_value`, on a value that has a canonical encoding. */
  function HashValue(sha: Sha, domain: string, v: Value): string {
    Sha256Hex(sha, domain, Canonical(v))
  }

  /** Equal hashes of preimages that do not collide come from the same domain and payload. */
  lemma HashBinds(sha: Sha, preimages: set<Bytes>, d1: string, p1: Bytes, d2: string, p2: Bytes)
    requires CollisionFree(sha, preimages)
    requires Tagged(d1, p1) in preimages && Tagged(d2, p2) in preimages
    requires ':' !in d1 && ':' !in d2
    requires Sha256Hex(sha, d1, p1) == Sha256Hex(sha, d2, p2)
    ensures d1 == d2 && p1 == p2
  {
    RenderInjective(sha(Tagged(d1, p1)), sha(Tagged(d2, p2)));
    TagInjective(d1, d2, p1, p2);
  }

  lemma ValueHashBinds(sha: Sha, preimages: set<Bytes>, domain: string, v: Value, w: Value)
    requires CollisionFree(sha, preimages)
    requires Tagged(domain, Canonical(v)) in preimages && Tagged(domain, Canonical(w)) in preimages
    requires ':' !in domain && Fits(v) && Fits(w)
    requires HashValue(sha, domain, v) == HashValue(sha, domain, w)
    ensures v == w
  {
    HashBinds(sha, preimages, domain, Canonical(v), domain, Canonical(w));
    Injective(v, w);
  }
}
