/**
 * What references and type expressions name (crates/allod-core/src/lib.rs:37-56,
 * crates/allod-core/src/registry.rs:133-235, crates/allod-core/src/fold.rs:43-48): versions, packages,
 * kinds and ids, the ancestors of a type, and the options of an enumeration.
 */
module References {
  import opened Text
  import opened Values
  import opened Order
  import opened Objects
  import opened Registries
  import opened Fold

  // ---------------------------------------------------------------- splitting

  /** What is left without a version. */
  lemma BareOf(reference: string, b: string)
    ensures Bare(reference) == b <==> '@' !in b && (reference == b || (|b| < |reference| && reference[|b|] == '@' && reference[..|b|] == b))
  {
    var i := IndexOf(reference, '@');
    assert Bare(reference) == reference[..i];
    assert forall k :: 0 <= k < i ==> reference[k] == reference[..i][k] && reference[k] != '@';
    hide IndexOf;
    if '@' !in b && |b| < |reference| && reference[|b|] == '@' && reference[..|b|] == b {
      assert forall k :: 0 <= k < |b| ==> reference[k] == b[k] && reference[k] != '@';
      assert i == |b|;
    }
    if '@' !in b && reference == b {
      assert forall k :: 0 <= k < |reference| ==> reference[k] == b[k] && reference[k] != '@';
      assert reference[..|reference|] == reference;
    }
    assert i == |reference| ==> reference[..i] == reference;
  }

  lemma SplitsOnce(s: string, c: char, a: string, b: string)
    ensures SplitOnce(s, c) == Some((a, b)) <==> s == a + [c] + b && c !in a
  {
    if s == a + [c] + b && c !in a {
      SplitOnceJoins(s, a, b, c);
    }
    var i := IndexOf(s, c);
    hide IndexOf;
    if i < |s| {
      assert s == s[..i] + [c] + s[i + 1..];
    }
  }

  lemma {:induction false} LastAt(s: string, c: char, a: string, b: string)
    requires s == a + [c] + b && c !in b
    ensures LastIndexOf(s, c) == Some(|a|)
    decreases |b|
  {
    if b == [] {
      assert s[|s| - 1] == c;
    } else {
      var n := |b| - 1;
      assert s[..|s| - 1] == a + [c] + b[..n] && s[|s| - 1] == b[n] && b[n] in b;
      LastAt(s[..|s| - 1], c, a, b[..n]);
    }
  }

  lemma SplitsLast(s: string, c: char, a: string, b: string)
    ensures RSplitOnce(s, c) == Some((a, b)) <==> s == a + [c] + b && c !in b
  {
    var r := LastIndexOf(s, c);
    if s == a + [c] + b && c !in b {
      LastAt(s, c, a, b);
      assert s[..|a|] == a && s[|a| + 1..] == b;
    }
    hide LastIndexOf;
    if r.Some? {
      assert s == s[..r.value] + [c] + s[r.value + 1..];
    }
  }

  /** No separator, nothing split off. */
  lemma Unsplit(s: string, c: char)
    ensures SplitOnce(s, c).None? <==> c !in s
    ensures RSplitOnce(s, c).None? <==> c !in s
  {
    var i, r := IndexOf(s, c), LastIndexOf(s, c);
    hide IndexOf, LastIndexOf;
    assert i == |s| ==> s[..i] == s;
    assert i < |s| ==> s[i] in s;
    assert r.Some? ==> s[r.value] in s;
  }

  // ---------------------------------------------------------------- objects

  /** A reference of kind and id resolves to the live object filed under them. */
  lemma Resolves(s: Objects, reference: string, kind: string, o: Obj)
    ensures ResolveRef(s, reference) == Some((kind, o)) <==>
            exists id :: reference == kind + ":" + id && ':' !in kind && (kind, id) in s && !s[(kind, id)].deleted && s[(kind, id)] == o
  {
    hide SplitOnce;
    if ResolveRef(s, reference) == Some((kind, o)) {
      var (k, id) := SplitOnce(reference, ':').value;
      SplitsOnce(reference, ':', k, id);
      assert k == kind;
    }
    if id :| reference == kind + ":" + id && ':' !in kind && (kind, id) in s && !s[(kind, id)].deleted && s[(kind, id)] == o {
      SplitsOnce(reference, ':', kind, id);
    }
  }

  // ---------------------------------------------------------------- types

  /** The reference without its version names this package and name, or a name of the package it is read in. */
  ghost predicate Qualifies(reference: string, pkg: Option<string>, p: string, name: string) {
    || (Bare(reference) == p + "/" + name && '/' !in name)
    || (Bare(reference) == name && '/' !in name && pkg == Some(p))
  }

  lemma OneSlash(p: string, name: string)
    ensures '/' in p + "/" + name
  {
    assert (p + "/" + name)[|p|] == '/';
  }

  /** A type resolves to a definition of the package it names. */
  lemma TypeResolves(reg: Registry, reference: string, pkg: Option<string>, t: Resolved)
    ensures ResolveType(reg, reference, pkg) == Some(t) <==>
            Qualifies(reference, pkg, t.pkg, t.name) && t.pkg in reg.packages && Get(reg.packages[t.pkg].types, t.name) == Some(t.def)
  {
    var name := Bare(reference);
    hide Bare, RSplitOnce, Get;
    Unsplit(name, '/');
    SplitsLast(name, '/', t.pkg, t.name);
    OneSlash(t.pkg, t.name);
    if RSplitOnce(name, '/').Some? {
      var (p, n) := RSplitOnce(name, '/').value;
      SplitsLast(name, '/', p, n);
    }
  }

  lemma EdgeTypeResolves(reg: Registry, reference: string, def: Value)
    ensures ResolveEdgeType(reg, reference) == Some(def) <==>
            exists p, name :: Qualifies(reference, None, p, name) && p in reg.packages && Get(reg.packages[p].edges, name) == Some(def)
  {
    var bare := Bare(reference);
    hide Bare, RSplitOnce, Get;
    Unsplit(bare, '/');
    if RSplitOnce(bare, '/').Some? {
      var (p, n) := RSplitOnce(bare, '/').value;
      SplitsLast(bare, '/', p, n);
      assert Qualifies(reference, None, p, n);
    }
    forall p, name | Qualifies(reference, None, p, name) ensures RSplitOnce(bare, '/') == Some((p, name)) {
      SplitsLast(bare, '/', p, name);
    }
  }

  /** The package an edge type is declared in. */
  lemma PackageInIs(reference: string, p: string)
    ensures PackageIn(reference) == Some(p) <==> exists name :: Qualifies(reference, None, p, name)
  {
    var bare := Bare(reference);
    hide Bare, RSplitOnce;
    if RSplitOnce(bare, '/').Some? {
      var (q, n) := RSplitOnce(bare, '/').value;
      SplitsLast(bare, '/', q, n);
    }
    forall name | Qualifies(reference, None, p, name) ensures RSplitOnce(bare, '/') == Some((p, name)) {
      SplitsLast(bare, '/', p, name);
    }
    if PackageIn(reference) == Some(p) {
      assert Qualifies(reference, None, p, RSplitOnce(bare, '/').value.1);
    }
  }

  /** Each type states that it extends the next, read in the package that declares it. */
  ghost predicate Descends(reg: Registry, ts: seq<Resolved>) {
    forall i :: 0 <= i < |ts| - 1 ==>
      GetStr(ts[i].def, "extends").Some? && ResolveType(reg, GetStr(ts[i].def, "extends").value, Some(ts[i].pkg)) == Some(ts[i + 1])
  }

  lemma {:induction false} AncestorsDescend(reg: Registry, start: Resolved, n: nat) returns (ts: seq<Resolved>)
    requires AncestorAt(reg, Some(start), n).Some?
    ensures |ts| == n + 1 && ts[0] == start && Descends(reg, ts) && ts[n] == AncestorAt(reg, Some(start), n).value
  {
    hide ResolveType;
    if n == 0 {
      ts := [start];
    } else {
      ts := AncestorsDescend(reg, start, n - 1);
      ts := ts + [AncestorAt(reg, Some(start), n).value];
    }
  }

  lemma {:induction false} DescentIsAncestry(reg: Registry, ts: seq<Resolved>, n: nat)
    requires n < |ts| && Descends(reg, ts)
    ensures AncestorAt(reg, Some(ts[0]), n) == Some(ts[n])
  {
    hide ResolveType;
    if n > 0 {
      DescentIsAncestry(reg, ts, n - 1);
    }
  }

  /** A line of at most 33 types leads from the actual type to the allowed one. */
  ghost predicate Line(reg: Registry, actual: string, allowed: string, pkg: Option<string>, ts: seq<Resolved>) {
    && 0 < |ts| <= 33 && ResolveType(reg, actual, pkg) == Some(ts[0]) && Descends(reg, ts)
    && ResolveType(reg, allowed, pkg).Some?
    && var (last, target) := (ts[|ts| - 1], ResolveType(reg, allowed, pkg).value); last.pkg == target.pkg && last.name == target.name
  }

  /** A type satisfies another when it is that type or extends it in at most 32 steps. */
  lemma SatisfiesIs(reg: Registry, actual: string, allowed: string, pkg: Option<string>)
    ensures TypeSatisfies(reg, actual, allowed, pkg) <==> exists ts :: Line(reg, actual, allowed, pkg, ts)
  {
    hide ResolveType, Descends, Extended;
    var start := ResolveType(reg, actual, pkg);
    if TypeSatisfies(reg, actual, allowed, pkg) {
      var target := ResolveType(reg, allowed, pkg).value;
      var n: nat :| n <= MAX_HOPS && Names(AncestorAt(reg, start, n), target);
      if start.None? {
        AncestorsEnd(reg, start, 0, n);
        assert false;
      } else {
        var ts := AncestorsDescend(reg, start.value, n);
        assert Line(reg, actual, allowed, pkg, ts);
      }
    }
    if ts :| Line(reg, actual, allowed, pkg, ts) {
      DescentIsAncestry(reg, ts, |ts| - 1);
      assert Names(AncestorAt(reg, start, |ts| - 1), ResolveType(reg, allowed, pkg).value);
    }
  }

  /** A struct is the one of that name in the least package that declares it. */
  lemma StructIs(reg: Registry, name: string, def: Value)
    ensures ResolveStruct(reg, name) == Some(def) <==> exists p :: Least(reg, name, p) && Get(reg.packages[p].structs, name) == Some(def)
  {
    var declaring := set p | p in reg.packages && Get(reg.packages[p].structs, name).Some?;
    StringLessIsOrder();
    if declaring != {} {
      var first := StringsInOrder(declaring)[0];
      assert first in StringsInOrder(declaring);
      assert ResolveStruct(reg, name) == Get(reg.packages[first].structs, name);
      LeastFirst(declaring, first);
      hide StringLess, StringsInOrder, Get, ResolveStruct;
      assert Least(reg, name, first);
      forall p | Least(reg, name, p) ensures p == first {
        assert p in declaring && !(StringLess(p, first) && StringLess(first, p));
      }
    } else {
      assert forall p :: p in reg.packages ==> p !in declaring && Get(reg.packages[p].structs, name).None?;
    }
  }

  /** The least package that declares a struct of this name. */
  ghost predicate Least(reg: Registry, name: string, p: string) {
    && p in reg.packages && Get(reg.packages[p].structs, name).Some?
    && forall q :: q in reg.packages && Get(reg.packages[q].structs, name).Some? ==> q == p || StringLess(p, q)
  }

  lemma LeastFirst(names: set<string>, first: string)
    requires names != {} && StringsInOrder(names)[0] == first
    ensures forall q :: q in names ==> q == first || StringLess(first, q)
  {
    var ordered := StringsInOrder(names);
    hide StringLess, StringsInOrder;
    forall q | q in names ensures q == first || StringLess(first, q) {
      var i :| 0 <= i < |ordered| && ordered[i] == q;
    }
  }

  // ---------------------------------------------------------------- taxonomies

  /** The last of the terms of that name. */
  ghost predicate LastNamed(terms: seq<Value>, i: int, name: string) {
    0 <= i < |terms| && GetStr(terms[i], "name") == Some(name) && forall j :: i < j < |terms| ==> GetStr(terms[j], "name") != Some(name)
  }

  /** A taxonomy has the terms it names; the last entry of a name gives its parents. */
  lemma {:induction false} TermsAre(terms: seq<Value>, name: string)
    ensures name in TermMap(terms) <==> exists i :: LastNamed(terms, i, name)
    ensures forall i, parent :: LastNamed(terms, i, name) ==>
              (parent in TermMap(terms)[name] <==> GetSeq(terms[i], "parents").Some? && Str(parent) in GetSeq(terms[i], "parents").value)
  {
    if terms == [] {
    } else {
      var init, n := terms[..|terms| - 1], |terms| - 1;
      TermsAre(init, name);
      ParentsOf(terms[n]);
      hide TermParents, GetSeq;
      if GetStr(terms[n], "name") == Some(name) {
        assert LastNamed(terms, n, name);
        assert forall i :: LastNamed(terms, i, name) ==> i == n;
      } else {
        assert forall i :: LastNamed(terms, i, name) <==> LastNamed(init, i, name) by {
          forall i ensures LastNamed(terms, i, name) <==> LastNamed(init, i, name) {
            assert forall j :: 0 <= j < n ==> terms[j] == init[j];
          }
        }
      }
    }
  }

  lemma ParentsOf(term: Value)
    ensures forall parent :: parent in TermParents(term) <==> GetSeq(term, "parents").Some? && Str(parent) in GetSeq(term, "parents").value
  {
  }

  // ---------------------------------------------------------------- enumerations

  ghost predicate Blank(s: string) {
    forall c :: c in s ==> IsWhitespace(c)
  }

  /** The text without the blanks around it. */
  ghost predicate Trimmed(s: string, t: string) {
    && (exists a, b :: s == a + t + b && Blank(a) && Blank(b))
    && (t != [] ==> !IsWhitespace(t[0]) && !IsWhitespace(t[|t| - 1]))
  }

  lemma {:induction false} StartTrimmed(s: string) returns (a: string)
    ensures s == a + TrimStart(s) && Blank(a)
    ensures TrimStart(s) != [] ==> !IsWhitespace(TrimStart(s)[0])
  {
    hide IsWhitespace;
    if s != [] && IsWhitespace(s[0]) {
      var rest := StartTrimmed(s[1..]);
      a := [s[0]] + rest;
    } else {
      a := [];
    }
  }

  lemma {:induction false} EndTrimmed(s: string) returns (b: string)
    ensures s == TrimEnd(s) + b && Blank(b)
    ensures TrimEnd(s) != [] ==> !IsWhitespace(TrimEnd(s)[|TrimEnd(s)| - 1])
  {
    hide IsWhitespace;
    if s != [] && IsWhitespace(s[|s| - 1]) {
      var rest := EndTrimmed(s[..|s| - 1]);
      b := rest + [s[|s| - 1]];
    } else {
      b := [];
    }
  }

  /** Trimming takes the blanks off both ends and nothing else. */
  lemma TrimIs(s: string)
    ensures Trimmed(s, Trim(s))
  {
    var t, u := TrimStart(s), Trim(s);
    var a := StartTrimmed(s);
    var b := EndTrimmed(t);
    hide TrimStart, TrimEnd, IsWhitespace;
    assert s == a + u + b;
    assert u != [] ==> u[0] == t[0];
  }

  /** A part of the text between separators. */
  ghost predicate PartOf(s: string, c: char, part: string) {
    exists i, j :: IsPart(s, c, part, i, j)
  }

  ghost predicate IsPart(s: string, c: char, part: string, i: int, j: int) {
    && 0 <= i <= j <= |s| && part == s[i..j] && c !in part
    && (i == 0 || s[i - 1] == c) && (j == |s| || s[j] == c)
  }

  lemma {:induction false} SplitIs(s: string, c: char, part: string)
    ensures part in Split(s, c) <==> PartOf(s, c, part)
    decreases |s|
  {
    var n := IndexOf(s, c);
    hide IndexOf;
    if n == |s| {
      assert s[..n] == s;
      WholePart(s, c, part);
    } else {
      var rest := s[n + 1..];
      SplitIs(rest, c, part);
      PartsAfter(s, c, part, n);
      assert Split(s, c) == [s[..n]] + Split(rest, c);
      hide Split, PartOf;
    }
  }

  lemma WholePart(s: string, c: char, part: string)
    requires c !in s
    ensures PartOf(s, c, part) <==> part == s
  {
    assert s[0..|s|] == s;
    assert forall k :: 0 <= k < |s| ==> s[k] in s && s[k] != c;
    if part == s {
      assert IsPart(s, c, part, 0, |s|);
    }
  }

  lemma PartsAfter(s: string, c: char, part: string, n: int)
    requires 0 <= n < |s| && s[n] == c && c !in s[..n]
    ensures PartOf(s, c, part) <==> part == s[..n] || PartOf(s[n + 1..], c, part)
  {
    var rest := s[n + 1..];
    if part == s[..n] {
      assert IsPart(s, c, part, 0, n);
    }
    if i, j :| IsPart(rest, c, part, i, j) {
      assert s[n + 1 + i..n + 1 + j] == rest[i..j];
      assert IsPart(s, c, part, n + 1 + i, n + 1 + j);
    }
    if i, j :| IsPart(s, c, part, i, j) {
      PartAfter(s, c, part, n, i, j);
    }
  }

  lemma PartAfter(s: string, c: char, part: string, n: int, i: int, j: int)
    requires 0 <= n < |s| && s[n] == c && c !in s[..n]
    requires IsPart(s, c, part, i, j)
    ensures part == s[..n] || PartOf(s[n + 1..], c, part)
  {
    var rest := s[n + 1..];
    assert forall k :: 0 <= k < n ==> s[k] == s[..n][k] && s[k] != c;
    assert forall k :: 0 <= k < |part| ==> part[k] == s[i + k] && part[k] != c;
    if i == 0 {
      assert j == n;
      assert s[0..n] == s[..n];
    } else {
      assert i > n;
      assert rest[i - n - 1..j - n - 1] == s[i..j];
      assert IsPart(rest, c, part, i - n - 1, j - n - 1);
    }
  }
}
