/** Package and taxonomy registries with reference resolution (crates/allod-core/src/registry.rs). */
module Registries {
  import opened Text
  import opened Values
  import opened Graphs

  datatype Package = Package(types: Value, edges: Value, structs: Value, rules: Value, imports: seq<string>)

  /** Term name to parent terms. */
  datatype Taxonomy = Taxonomy(terms: map<string, seq<string>>)

  datatype Registry = Registry(packages: map<string, Package>, taxonomies: map<string, Taxonomy>)

  const EMPTY := Registry(map[], map[])

  function InsertPackage(reg: Registry, name: string, p: Package): Registry {
    reg.(packages := reg.packages[name := p])
  }

  /** The parents of a taxonomy term. */
  function TermParents(term: Value): seq<string> {
    Strings(GetSeq(term, "parents").GetOr([]))
  }

  /** Term map of a list of terms; a later term of the same name replaces an earlier one. */
  function TermMap(terms: seq<Value>): map<string, seq<string>> {
    if terms == [] then map[]
    else
      var before, term := TermMap(terms[..|terms| - 1]), terms[|terms| - 1];
      match GetStr(term, "name")
      case None => before
      case Some(name) => before[name := TermParents(term)]
  }

  function InsertTaxonomy(reg: Registry, name: string, terms: seq<Value>): Registry {
    reg.(taxonomies := reg.taxonomies[name := Taxonomy(TermMap(terms))])
  }

  function ImportNames(imports: seq<Value>): seq<string> {
    if imports == [] then []
    else
      match GetStr(imports[0], "ontology")
      case None => ImportNames(imports[1..])
      case Some(n) => [n] + ImportNames(imports[1..])
  }

  function PackageOf(doc: Value): Package {
    Package(Get(doc, "entity_types").GetOr(Null), Get(doc, "edge_types").GetOr(Null), Get(doc, "structs").GetOr(Null),
            Get(doc, "validation_rules").GetOr(Null), ImportNames(GetSeq(doc, "imports").GetOr([])))
  }

  /** Register an ontology document; a document without a package name is refused. */
  function RegisterOntology(reg: Registry, doc: Value): Option<Registry> {
    match GetStr(doc, "ontology")
    case None => None
    case Some(name) => Some(InsertPackage(reg, name, PackageOf(doc)))
  }

  function RegisterTaxonomy(reg: Registry, doc: Value): Option<Registry> {
    match GetStr(doc, "taxonomy")
    case None => None
    case Some(name) => Some(InsertTaxonomy(reg, name, GetSeq(doc, "terms").GetOr([])))
  }

  // ---------------------------------------------------------------- resolution

  /** A resolved type: package, name, definition. */
  datatype Resolved = Resolved(pkg: string, name: string, def: Value)

  function TypeIn(reg: Registry, pkg: string, name: string): Option<Resolved> {
    if pkg !in reg.packages then None
    else
      match Get(reg.packages[pkg].types, name)
      case None => None
      case Some(def) => Some(Resolved(pkg, name, def))
  }

  /** Resolve `Type` or `pkg/Type`. */
  function ResolveType(reg: Registry, reference: string, pkg: Option<string>): Option<Resolved> {
    var name := Bare(reference);
    match RSplitOnce(name, '/')
    case Some((p, t)) => TypeIn(reg, p, t)
    case None =>
      match pkg
      case None => None
      case Some(p) => TypeIn(reg, p, name)
  }

  /** Resolve `pkg/edge` to its definition. */
  function ResolveEdgeType(reg: Registry, reference: string): Option<Value> {
    match RSplitOnce(Bare(reference), '/')
    case None => None
    case Some((p, e)) => if p in reg.packages then Get(reg.packages[p].edges, e) else None
  }

  /** The type a definition extends, looked up from the package that declares it. */
  function Extended(reg: Registry, t: Resolved): Option<Resolved> {
    match GetStr(t.def, "extends")
    case None => None
    case Some(parent) => ResolveType(reg, parent, Some(t.pkg))
  }

  /** The type reached after `n` steps along `extends`. */
  function AncestorAt(reg: Registry, start: Option<Resolved>, n: nat): Option<Resolved> {
    if n == 0 then start
    else
      match AncestorAt(reg, start, n - 1)
      case None => None
      case Some(t) => Extended(reg, t)
  }

  const MAX_HOPS := 32

  predicate Names(t: Option<Resolved>, target: Resolved) {
    t.Some? && t.value.pkg == target.pkg && t.value.name == target.name
  }

  /** `actual` is `allowed` or reaches it along at most `MAX_HOPS` extensions. */
  predicate TypeSatisfies(reg: Registry, actual: string, allowed: string, pkg: Option<string>) {
    match ResolveType(reg, allowed, pkg)
    case None => false
    case Some(target) =>
      exists n: nat | n <= MAX_HOPS :: Names(AncestorAt(reg, ResolveType(reg, actual, pkg), n), target)
  }

  lemma {:induction false} AncestorsEnd(reg: Registry, start: Option<Resolved>, n: nat, m: nat)
    requires n <= m
    requires AncestorAt(reg, start, n) == None
    ensures AncestorAt(reg, start, m) == None
    decreases m
  {
    if n < m {
      AncestorsEnd(reg, start, n, m - 1);
    }
  }

  method TypeSatisfiesLoop(reg: Registry, actual: string, allowed: string, pkg: Option<string>) returns (ok: bool)
    ensures ok == TypeSatisfies(reg, actual, allowed, pkg)
  {
    hide ResolveType, Extended;
    var target := ResolveType(reg, allowed, pkg);
    if target.None? {
      return false;
    }
    ghost var start := ResolveType(reg, actual, pkg);
    var current := ResolveType(reg, actual, pkg);
    var hops := 0;
    while current.Some?
      invariant 0 <= hops <= MAX_HOPS
      invariant current == AncestorAt(reg, start, hops)
      invariant forall n: nat :: n < hops ==> !Names(AncestorAt(reg, start, n), target.value)
      decreases MAX_HOPS + 1 - hops
    {
      if current.value.pkg == target.value.pkg && current.value.name == target.value.name {
        assert Names(AncestorAt(reg, start, hops), target.value);
        return true;
      }
      hops := hops + 1;
      if hops > 32 {
        return false;
      }
      current := Extended(reg, current.value);
    }
    forall n: nat | n <= MAX_HOPS ensures !Names(AncestorAt(reg, start, n), target.value) {
      if n >= hops {
        AncestorsEnd(reg, start, hops, n);
      }
    }
    ok := false;
  }

  // ---------------------------------------------------------------- term closure

  /** The parents of a term in every loaded taxonomy, without versions. */
  function Parents(reg: Registry, term: string): set<string> {
    set t, p | t in reg.taxonomies && term in reg.taxonomies[t].terms && p in reg.taxonomies[t].terms[term] :: Bare(p)
  }

  function Broader(reg: Registry): Successors<string> {
    term => Parents(reg, term)
  }

  /** Every term some taxonomy names as a parent. */
  function AllParents(reg: Registry): set<string> {
    set t, k, p | t in reg.taxonomies && k in reg.taxonomies[t].terms && p in reg.taxonomies[t].terms[k] :: Bare(p)
  }

  /** The term itself and everything reachable along parents. */
  ghost function TermClosure(reg: Registry, term: string): set<string> {
    set x | x in AllParents(reg) + {Bare(term)} && Reaches(Broader(reg), Bare(term), x)
  }

  lemma TermClosureMembers(reg: Registry, term: string, x: string)
    ensures x in TermClosure(reg, term) <==> Reaches(Broader(reg), Bare(term), x)
  {
    if Reaches(Broader(reg), Bare(term), x) {
      assert Closed(Broader(reg), AllParents(reg) + {Bare(term)});
      ClosedContains(Broader(reg), AllParents(reg) + {Bare(term)}, Bare(term), x);
    }
  }

  /** The closure is the least set that holds the bare term and is closed under parents. */
  lemma TermClosureIsLeast(reg: Registry, term: string, s: set<string>)
    ensures Bare(term) in TermClosure(reg, term)
    ensures Closed(Broader(reg), TermClosure(reg, term))
    ensures Bare(term) in s && Closed(Broader(reg), s) ==> TermClosure(reg, term) <= s
  {
    var b := Bare(term);
    ReachesSelf(Broader(reg), b);
    TermClosureMembers(reg, term, b);
    forall x, y | x in TermClosure(reg, term) && y in Broader(reg)(x) ensures y in TermClosure(reg, term) {
      ReachesStep(Broader(reg), b, x, y);
      TermClosureMembers(reg, term, y);
    }
    if b in s && Closed(Broader(reg), s) {
      forall x | x in TermClosure(reg, term) ensures x in s {
        ClosedContains(Broader(reg), s, b, x);
      }
    }
  }

  /** Push the bare parents of `current` in every taxonomy; the order of a HashMap walk is not fixed. */
  method PushParents(reg: Registry, current: string, stack: seq<string>) returns (pushed: seq<string>)
    ensures stack <= pushed
    ensures forall x :: x in pushed <==> x in stack || x in Parents(reg, current)
  {
    pushed := stack;
    var names := reg.taxonomies.Keys;
    ghost var seen: set<string> := {};
    while names != {}
      invariant names !! seen && names + seen == reg.taxonomies.Keys
      invariant stack <= pushed
      invariant forall x :: x in pushed <==>
                  x in stack || exists t, p :: t in seen && t in reg.taxonomies && current in reg.taxonomies[t].terms
                                               && p in reg.taxonomies[t].terms[current] && x == Bare(p)
      decreases names
    {
      var t :| t in names;
      ghost var before := pushed;
      if current in reg.taxonomies[t].terms {
        var parents := reg.taxonomies[t].terms[current];
        for i := 0 to |parents|
          invariant stack <= pushed
          invariant forall x :: x in pushed <==> x in before || exists j :: 0 <= j < i && x == Bare(parents[j])
        {
          pushed := pushed + [Bare(parents[i])];
        }
        assert forall p :: p in parents <==> exists j :: 0 <= j < |parents| && parents[j] == p;
      }
      names, seen := names - {t}, seen + {t};
    }
  }

  /** What the closure walk keeps: only reachable terms, and parents of visited terms are visited or pending. */
  ghost predicate Walking(reg: Registry, term: string, closure: set<string>, stack: seq<string>) {
    && (Bare(term) in closure || Bare(term) in stack)
    && (forall x :: x in closure || x in stack ==> Reaches(Broader(reg), Bare(term), x))
    && (forall x, y :: x in closure && y in Parents(reg, x) ==> y in closure || y in stack)
  }

  lemma WalkStarts(reg: Registry, term: string)
    ensures Walking(reg, term, {}, [Bare(term)])
  {
    ReachesSelf(Broader(reg), Bare(term));
  }

  lemma WalkEnds(reg: Registry, term: string, closure: set<string>)
    requires Walking(reg, term, closure, [])
    ensures closure == TermClosure(reg, term)
  {
    TermClosureIsLeast(reg, term, closure);
    forall x | x in closure ensures x in TermClosure(reg, term) {
      TermClosureMembers(reg, term, x);
    }
  }

  lemma WalkExpands(reg: Registry, term: string, closure: set<string>, stack: seq<string>, current: string, pushed: seq<string>)
    requires Walking(reg, term, closure, stack + [current])
    requires stack <= pushed
    requires forall x :: x in pushed <==> x in stack || x in Parents(reg, current)
    ensures Walking(reg, term, closure + {current}, pushed)
  {
    assert current in stack + [current];
    forall x | x in pushed ensures Reaches(Broader(reg), Bare(term), x) {
      if x in Parents(reg, current) {
        ReachesStep(Broader(reg), Bare(term), current, x);
      } else {
        assert x in stack + [current];
      }
    }
    assert Bare(term) in closure + {current} || Bare(term) in pushed;
    forall x, y | x in closure + {current} && y in Parents(reg, x) ensures y in closure + {current} || y in pushed {
      if x in closure {
        assert y in closure || y in stack + [current];
      }
    }
  }

  lemma WalkShrinks(reg: Registry, term: string, closure: set<string>, stack: seq<string>, current: string)
    requires Walking(reg, term, closure, stack + [current])
    requires current !in closure
    ensures |AllParents(reg) + {Bare(term)} - (closure + {current})| < |AllParents(reg) + {Bare(term)} - closure|
  {
    var universe := AllParents(reg) + {Bare(term)};
    assert current in stack + [current];
    TermClosureMembers(reg, term, current);
    assert current in universe;
    assert current in universe - closure && current !in universe - (closure + {current});
    SubsetSize(universe - (closure + {current}), universe - closure);
  }

  method TermClosureLoop(reg: Registry, term: string) returns (closure: set<string>)
    ensures closure == TermClosure(reg, term)
  {
    hide Walking, TermClosure, Parents, AllParents;
    closure := {};
    var stack := [Bare(term)];
    WalkStarts(reg, term);
    while stack != []
      invariant Walking(reg, term, closure, stack)
      decreases |AllParents(reg) + {Bare(term)} - closure|, |stack|
    {
      var current, rest := stack[|stack| - 1], stack[..|stack| - 1];
      assert stack == rest + [current];
      if current in closure {
        WalkSkips(reg, term, closure, rest, current);
        stack := rest;
        continue;
      }
      WalkShrinks(reg, term, closure, rest, current);
      stack := PushParents(reg, current, rest);
      WalkExpands(reg, term, closure, rest, current, stack);
      closure := closure + {current};
    }
    WalkEnds(reg, term, closure);
  }

  lemma WalkSkips(reg: Registry, term: string, closure: set<string>, stack: seq<string>, current: string)
    requires Walking(reg, term, closure, stack + [current])
    requires current in closure
    ensures Walking(reg, term, closure, stack)
  {
    assert forall x :: x in stack + [current] <==> x in stack || x == current;
  }

  predicate TermExists(reg: Registry, reference: string) {
    exists t | t in reg.taxonomies :: Bare(reference) in reg.taxonomies[t].terms
  }

  // ---------------------------------------------------------------- inherited attributes

  function TypeKeys(reg: Registry): set<(string, string)> {
    set p, t | p in reg.packages && reg.packages[p].types.Map? && t in reg.packages[p].types.m :: (p, t)
  }

  function Declared(def: Value): map<string, Value> {
    match Get(def, "attributes")
    case Some(Map(m)) => m
    case _ => map[]
  }

  /** Attributes of a type and of the types it extends; a type already seen contributes nothing. */
  function CollectAttrs(reg: Registry, pkg: string, name: string, seen: set<(string, string)>): map<string, Value>
    decreases |TypeKeys(reg) - seen|
  {
    if (pkg, name) in seen then map[]
    else
      match TypeIn(reg, pkg, name)
      case None => map[]
      case Some(t) =>
        SeeingShrinks(reg, pkg, name, seen);
        match Extended(reg, t)
        case None => Declared(t.def)
        case Some(parent) => CollectAttrs(reg, parent.pkg, parent.name, seen + {(pkg, name)}) + Declared(t.def)
  }

  lemma SeeingShrinks(reg: Registry, pkg: string, name: string, seen: set<(string, string)>)
    requires (pkg, name) !in seen && TypeIn(reg, pkg, name).Some?
    ensures |TypeKeys(reg) - (seen + {(pkg, name)})| < |TypeKeys(reg) - seen|
  {
    assert (pkg, name) in TypeKeys(reg) - seen && (pkg, name) !in TypeKeys(reg) - (seen + {(pkg, name)});
    SubsetSize(TypeKeys(reg) - (seen + {(pkg, name)}), TypeKeys(reg) - seen);
  }

  function CollectedAttrs(reg: Registry, pkg: string, name: string): map<string, Value> {
    CollectAttrs(reg, pkg, name, {})
  }

  /** The types whose attributes are collected, the type itself first. */
  ghost function Lineage(reg: Registry, pkg: string, name: string, seen: set<(string, string)>): seq<Resolved>
    decreases |TypeKeys(reg) - seen|
  {
    if (pkg, name) in seen then []
    else
      match TypeIn(reg, pkg, name)
      case None => []
      case Some(t) =>
        SeeingShrinks(reg, pkg, name, seen);
        match Extended(reg, t)
        case None => [t]
        case Some(parent) => [t] + Lineage(reg, parent.pkg, parent.name, seen + {(pkg, name)})
  }

  /** Attribute `a` is declared by `ts[i]` and by nothing before it. */
  ghost predicate NearestDeclares(ts: seq<Resolved>, i: nat, a: string) {
    && i < |ts|
    && a in Declared(ts[i].def)
    && forall j :: 0 <= j < i ==> a !in Declared(ts[j].def)
  }

  /** An attribute is inherited from the nearest type of the lineage that declares it, cycles or not. */
  lemma {:induction false} NearestDeclarationWins(reg: Registry, pkg: string, name: string, seen: set<(string, string)>, a: string)
    ensures a in CollectAttrs(reg, pkg, name, seen) <==>
            exists i: nat :: NearestDeclares(Lineage(reg, pkg, name, seen), i, a)
    ensures forall i: nat :: NearestDeclares(Lineage(reg, pkg, name, seen), i, a) ==>
              CollectAttrs(reg, pkg, name, seen)[a] == Declared(Lineage(reg, pkg, name, seen)[i].def)[a]
    decreases |TypeKeys(reg) - seen|
  {
    hide TypeIn, Extended, Declared, TypeKeys;
    var ts := Lineage(reg, pkg, name, seen);
    if ts == [] {
    } else {
      var t, more := ts[0], seen + {(pkg, name)};
      SeeingShrinks(reg, pkg, name, seen);
      Unfold(reg, pkg, name, seen);
      if a in Declared(t.def) {
        assert NearestDeclares(ts, 0, a);
      } else if Extended(reg, t).Some? {
        var p := Extended(reg, t).value;
        NearestDeclarationWins(reg, p.pkg, p.name, more, a);
        NearestInTail(t, Lineage(reg, p.pkg, p.name, more), a);
      }
    }
  }

  lemma Unfold(reg: Registry, pkg: string, name: string, seen: set<(string, string)>)
    requires Lineage(reg, pkg, name, seen) != []
    ensures var t := Lineage(reg, pkg, name, seen)[0];
            && TypeIn(reg, pkg, name) == Some(t)
            && (t.pkg, t.name) == (pkg, name)
            && (pkg, name) !in seen
            && (Extended(reg, t).None? ==> Lineage(reg, pkg, name, seen) == [t] && CollectAttrs(reg, pkg, name, seen) == Declared(t.def))
            && (Extended(reg, t).Some? ==>
                  var p := Extended(reg, t).value;
                  && Lineage(reg, pkg, name, seen) == [t] + Lineage(reg, p.pkg, p.name, seen + {(pkg, name)})
                  && CollectAttrs(reg, pkg, name, seen) == CollectAttrs(reg, p.pkg, p.name, seen + {(pkg, name)}) + Declared(t.def))
  {
  }

  lemma NearestInTail(t: Resolved, rest: seq<Resolved>, a: string)
    requires a !in Declared(t.def)
    ensures forall i: nat :: NearestDeclares(rest, i, a) ==> NearestDeclares([t] + rest, i + 1, a)
    ensures forall i: nat :: NearestDeclares([t] + rest, i, a) ==> i > 0 && NearestDeclares(rest, i - 1, a)
  {
    hide Declared;
    var ts := [t] + rest;
    forall i: nat | NearestDeclares(ts, i, a) ensures i > 0 && NearestDeclares(rest, i - 1, a) {
      assert forall j :: 0 <= j < i - 1 ==> rest[j] == ts[j + 1];
    }
  }

  /** The lineage is the chain of `extends` steps, cut where it ends or meets a type again. */
  lemma {:induction false} LineageFollowsExtends(reg: Registry, pkg: string, name: string, seen: set<(string, string)>, i: nat)
    requires i < |Lineage(reg, pkg, name, seen)|
    ensures AncestorAt(reg, TypeIn(reg, pkg, name), i) == Some(Lineage(reg, pkg, name, seen)[i])
    ensures var t := Lineage(reg, pkg, name, seen)[i]; (t.pkg, t.name) !in seen
    ensures forall j :: 0 <= j < i ==>
              var t, u := Lineage(reg, pkg, name, seen)[i], Lineage(reg, pkg, name, seen)[j]; (t.pkg, t.name) != (u.pkg, u.name)
    decreases |TypeKeys(reg) - seen|
  {
    hide TypeIn, Extended, TypeKeys;
    Unfold(reg, pkg, name, seen);
    var ts := Lineage(reg, pkg, name, seen);
    var t := ts[0];
    SeeingShrinks(reg, pkg, name, seen);
    if i > 0 {
      var p, more := Extended(reg, t).value, seen + {(pkg, name)};
      var rest := Lineage(reg, p.pkg, p.name, more);
      assert forall j :: 0 < j < |ts| ==> ts[j] == rest[j - 1];
      LineageFollowsExtends(reg, p.pkg, p.name, more, i - 1);
      ExtendedIsTypeIn(reg, t);
      AncestorsShift(reg, Some(t), i - 1);
    }
  }

  lemma ExtendedIsTypeIn(reg: Registry, t: Resolved)
    requires Extended(reg, t).Some?
    ensures TypeIn(reg, Extended(reg, t).value.pkg, Extended(reg, t).value.name) == Extended(reg, t)
  {
  }

  lemma {:induction false} AncestorsShift(reg: Registry, start: Option<Resolved>, n: nat)
    requires start.Some?
    ensures AncestorAt(reg, start, n + 1) == AncestorAt(reg, Extended(reg, start.value), n)
  {
    hide Extended;
    if n > 0 {
      AncestorsShift(reg, start, n - 1);
    }
  }
}
