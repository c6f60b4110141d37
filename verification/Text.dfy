/** Options, results, bytes, and the small string operations the program performs on references. */
module Text {

  datatype Option<+T> = None | Some(value: T) {
    function GetOr(default: T): T {
      match this
      case Some(v) => v
      case None => default
    }
  }

  /** The program's `Result<T, String>`; the message names the kind of failure. */
  datatype Result<+T> = Ok(value: T) | Err(error: string) {
    predicate IsFailure() {
      Err?
    }

    function PropagateFailure<U>(): Result<U>
      requires Err?
    {
      Err(error)
    }

    function Extract(): T
      requires Ok?
    {
      value
    }
  }

  function OrErr<T>(o: Option<T>, error: string): Result<T> {
    match o
    case Some(v) => Ok(v)
    case None => Err(error)
  }

  type Byte = n: int | 0 <= n < 256

  type Bytes = seq<Byte>

  function IndexOf(s: string, c: char): (i: nat)
    ensures i <= |s|
    ensures c !in s[..i]
    ensures i < |s| ==> s[i] == c
  {
    if s == [] then 0
    else if s[0] == c then 0
    else
      var rest := IndexOf(s[1..], c);
      assert s[..rest + 1] == [s[0]] + s[1..][..rest];
      rest + 1
  }

  /** Strip a `@version` suffix from a reference. */
  function Bare(reference: string): string {
    reference[..IndexOf(reference, '@')]
  }

  /** Split at the first occurrence of `c`. */
  function SplitOnce(s: string, c: char): Option<(string, string)> {
    var i := IndexOf(s, c);
    if i == |s| then None else Some((s[..i], s[i + 1..]))
  }

  function LastIndexOf(s: string, c: char): (r: Option<nat>)
    ensures r.Some? ==> r.value < |s| && s[r.value] == c && c !in s[r.value + 1..]
    ensures r.None? ==> c !in s
  {
    if s == [] then None
    else if s[|s| - 1] == c then Some(|s| - 1)
    else
      var r := LastIndexOf(s[..|s| - 1], c);
      assert s == s[..|s| - 1] + [s[|s| - 1]];
      assert r.Some? ==> s[r.value + 1..] == s[..|s| - 1][r.value + 1..] + [s[|s| - 1]];
      r
  }

  /** Split at the last occurrence of `c`. */
  function RSplitOnce(s: string, c: char): Option<(string, string)> {
    match LastIndexOf(s, c)
    case None => None
    case Some(i) => Some((s[..i], s[i + 1..]))
  }

  function StripPrefix(s: string, prefix: string): (r: Option<string>)
    ensures r.Some? ==> s == prefix + r.value
  {
    if prefix <= s then Some(s[|prefix|..]) else None
  }

  function StripSuffix(s: string, suffix: string): Option<string> {
    if |suffix| <= |s| && s[|s| - |suffix|..] == suffix then Some(s[..|s| - |suffix|]) else None
  }

  function Split(s: string, c: char): seq<string>
    decreases |s|
  {
    var i := IndexOf(s, c);
    if i == |s| then [s] else [s[..i]] + Split(s[i + 1..], c)
  }

  /** The characters of the Unicode White_Space property, which `str::trim` removes. */
  predicate IsWhitespace(c: char) {
    var n := c as int;
    || 0x09 <= n <= 0x0d || n == 0x20 || n == 0x85 || n == 0xa0 || n == 0x1680
    || 0x2000 <= n <= 0x200a || n == 0x2028 || n == 0x2029 || n == 0x202f || n == 0x205f || n == 0x3000
  }

  function TrimStart(s: string): string {
    if s != [] && IsWhitespace(s[0]) then TrimStart(s[1..]) else s
  }

  function TrimEnd(s: string): string {
    if s != [] && IsWhitespace(s[|s| - 1]) then TrimEnd(s[..|s| - 1]) else s
  }

  function Trim(s: string): string {
    TrimEnd(TrimStart(s))
  }

  lemma TrimKeeps(t: string)
    requires t != [] && !IsWhitespace(t[0]) && !IsWhitespace(t[|t| - 1])
    ensures Trim(t) == t
  {
  }

  lemma SplitOnceJoins(s: string, a: string, b: string, c: char)
    requires s == a + [c] + b
    requires c !in a
    ensures SplitOnce(s, c) == Some((a, b))
  {
    var i := IndexOf(s, c);
    assert s[|a|] == c;
    assert forall k :: 0 <= k < |a| ==> s[k] == a[k] && s[k] != c;
    assert forall k :: 0 <= k < i ==> s[k] in s[..i];
    assert s[..|a|] == a;
    assert s[|a| + 1..] == b;
  }

  lemma SplitHead(a: string, b: string)
    requires '|' !in a
    ensures Split(a + "|" + b, '|') == [a] + Split(b, '|')
  {
    var s := a + "|" + b;
    SplitOnceJoins(s, a, b, '|');
    var i := IndexOf(s, '|');
    assert i == |a| && s[..i] == a && s[i + 1..] == b;
  }

  lemma SplitLast(a: string)
    requires '|' !in a
    ensures Split(a, '|') == [a]
  {
  }

  lemma Append<T>(a: seq<T>, b: seq<T>, c: seq<T>)
    ensures a + (b + c) == (a + b) + c
  {
  }

  ghost predicate Distinct<T>(s: seq<T>) {
    forall i, j :: 0 <= i < j < |s| ==> s[i] != s[j]
  }

  lemma DistinctJoin<T>(a: seq<T>, b: seq<T>)
    requires Distinct(a) && Distinct(b) && forall x :: x in b ==> x !in a
    ensures Distinct(a + b)
  {
    forall m, n | 0 <= m < n < |a + b| ensures (a + b)[m] != (a + b)[n] {
      if m < |a| <= n {
        assert (a + b)[n] in b && (a + b)[m] in a;
      }
    }
  }

  lemma {:induction false} DistinctFits<T>(s: seq<T>, all: set<T>)
    requires Distinct(s)
    requires forall x :: x in s ==> x in all
    ensures |s| <= |all|
  {
    if s == [] {
    } else {
      var last, front := s[|s| - 1], s[..|s| - 1];
      assert s == front + [last];
      assert forall x :: x in front ==> x in all - {last};
      DistinctFits(front, all - {last});
      assert |all - {last}| == |all| - 1;
    }
  }

  lemma SubsetSize<T>(a: set<T>, b: set<T>)
    requires a <= b
    ensures |a| <= |b|
    ensures a != b ==> |a| < |b|
  {
    assert b == a + (b - a);
    assert a != b ==> b - a != {};
  }

  lemma BareIs(s: string)
    requires '@' !in s
    ensures Bare(s) == s
  {
    var i := IndexOf(s, '@');
    assert s[..|s|] == s;
  }

  lemma QualifiedSplits(pkg: string, name: string)
    requires '/' !in name
    ensures RSplitOnce(pkg + "/" + name, '/') == Some((pkg, name))
  {
    var s := pkg + "/" + name;
    assert s[|pkg|] == '/';
    assert forall i :: |pkg| < i < |s| ==> s[i] == name[i - |pkg| - 1];
    assert s[..|pkg|] == pkg && s[|pkg| + 1..] == name;
  }

  /** A version suffix is stripped again. */
  lemma BareVersioned(t: string)
    requires '@' !in t
    ensures Bare(t + "@1") == t
  {
    var s := t + "@1";
    var i := IndexOf(s, '@');
    assert s[|t|] == '@';
    assert forall j :: 0 <= j < |t| ==> s[j] == t[j];
    assert s[..|t|] == t;
  }

  lemma OneMoreKey<K>(m: map<K, nat>, n: K)
    requires n !in m
    ensures |m[n := |m|]| == |m| + 1
  {
    assert m[n := |m|].Keys == m.Keys + {n};
  }
}
