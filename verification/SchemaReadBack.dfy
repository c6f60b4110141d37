/**
 * The registry read back from compiled documents against the registry the documents load: equal up
 * to the order of rules, the order and repetition of imports, absent against empty sections, and the
 * seeded meta package.
 */
module SchemaReadBack {
  import opened Text
  import opened Values
  import opened Hashing
  import opened Objects
  import Order
  import opened Registries
  import opened Meta
  import opened SchemaOps
  import opened SchemaProjection
  import opened SchemaCompilation

  // ---------------------------------------------------------------- the part of the elements that one document owns

  datatype Owner = Pkg(pkg: string) | Tax(tax: string) | Nobody

  function OwnerOf(e: Element): Owner {
    match e
    case Definition(_, pkg, _, _, _) => Pkg(pkg)
    case Term(tax, _, _, _) => Tax(tax)
    case Policy(_, _) => Nobody
  }

  function DocOwner(doc: Value): Owner {
    match GetStr(doc, "ontology")
    case Some(pkg) => Pkg(pkg)
    case None => match GetStr(doc, "taxonomy") case Some(tax) => Tax(tax) case None => Nobody
  }

  function Owned(es: seq<Element>, o: Owner): seq<Element> {
    if es == [] then []
    else Owned(es[..|es| - 1], o) + if OwnerOf(es[|es| - 1]) == o then [es[|es| - 1]] else []
  }

  lemma {:induction false} OwnedAppend(a: seq<Element>, b: seq<Element>, o: Owner)
    ensures Owned(a + b, o) == Owned(a, o) + Owned(b, o)
    decreases |b|
  {
    hide OwnerOf;
    if b == [] {
      assert a + b == a;
    } else {
      OwnedAppend(a, b[..|b| - 1], o);
      assert (a + b)[..|a + b| - 1] == a + b[..|b| - 1];
    }
  }

  lemma {:induction false} AllOwned(es: seq<Element>, o: Owner)
    requires forall e :: e in es ==> OwnerOf(e) == o
    ensures Owned(es, o) == es
  {
    if es == [] {
    } else {
      AllOwned(es[..|es| - 1], o);
      assert es == es[..|es| - 1] + [es[|es| - 1]];
    }
  }

  lemma {:induction false} NoneOwned(es: seq<Element>, o: Owner)
    requires forall e :: e in es ==> OwnerOf(e) != o
    ensures Owned(es, o) == []
  {
    if es == [] {
    } else {
      NoneOwned(es[..|es| - 1], o);
    }
  }

  lemma {:induction false} OwnedMembers(es: seq<Element>, o: Owner)
    ensures forall e :: e in Owned(es, o) <==> e in es && OwnerOf(e) == o
  {
    if es == [] {
    } else {
      OwnedMembers(es[..|es| - 1], o);
      assert es == es[..|es| - 1] + [es[|es| - 1]];
    }
  }

  lemma OwnedAround(left: seq<Element>, x: Element, right: seq<Element>, o: Owner)
    ensures multiset(Owned(left + [x] + right, o)) == multiset(Owned(left + right, o)) + multiset(Owned([x], o))
  {
    hide Owned;
    OwnedAppend(left + [x], right, o);
    OwnedAppend(left, [x], o);
    OwnedAppend(left, right, o);
  }

  lemma {:induction false} OwnedPermutes(a: seq<Element>, b: seq<Element>, o: Owner)
    requires multiset(a) == multiset(b)
    ensures multiset(Owned(a, o)) == multiset(Owned(b, o))
    decreases |a|
  {
    hide Owned;
    if a == [] {
      assert |multiset(b)| == |multiset(a)| == 0;
      assert b == [];
    } else {
      var x := a[0];
      assert x in multiset(a) && x in multiset(b);
      var i :| 0 <= i < |b| && b[i] == x;
      var left, right := b[..i], b[i + 1..];
      assert b == left + [x] + right;
      TakeOut(a, x, left, right);
      OwnedPermutes(a[1..], left + right, o);
      OwnedAround(left, x, right, o);
      OwnedAround([], x, a[1..], o);
      assert a == [] + [x] + a[1..] && [] + a[1..] == a[1..];
    }
  }

  lemma TermsOwner(tax: string, terms: seq<Value>)
    ensures forall e :: e in TermElements(tax, terms) ==> OwnerOf(e) == Tax(tax)
  {
  }

  lemma SectionOwner(section: Section, pkg: string, v: Option<Value>, imports: seq<string>)
    ensures forall e :: e in SectionElements(section, pkg, v, imports) ==> OwnerOf(e) == Pkg(pkg)
  {
  }

  lemma RulesOwner(pkg: string, rules: seq<Value>, imports: seq<string>)
    ensures forall e :: e in RuleElements(pkg, rules, imports) ==> OwnerOf(e) == Pkg(pkg)
  {
  }

  lemma DocElementsOwner(doc: Value)
    ensures forall e :: e in DocElements(doc) ==> OwnerOf(e) == DocOwner(doc)
  {
    hide OwnerOf, SectionElements, RuleElements, TermElements, DocImports;
    var imports := DocImports(doc);
    if GetStr(doc, "ontology").Some? {
      var pkg := GetStr(doc, "ontology").value;
      SectionOwner(EntityType, pkg, Get(doc, "entity_types"), imports);
      SectionOwner(EdgeType, pkg, Get(doc, "edge_types"), imports);
      SectionOwner(Struct, pkg, Get(doc, "structs"), imports);
      RulesOwner(pkg, GetSeq(doc, "validation_rules").GetOr([]), imports);
    } else if GetStr(doc, "taxonomy").Some? {
      TermsOwner(GetStr(doc, "taxonomy").value, GetSeq(doc, "terms").GetOr([]));
    }
  }

  lemma {:induction false} UnownedDocs(docs: seq<Named>, o: Owner)
    requires forall d :: d in docs ==> DocOwner(d.1) != o
    ensures Owned(DocsElements(docs), o) == []
  {
    hide DocElements, DocOwner;
    if docs == [] {
    } else {
      var init, last := docs[..|docs| - 1], docs[|docs| - 1];
      UnownedDocs(init, o);
      DocElementsOwner(last.1);
      assert last in docs;
      NoneOwned(DocElements(last.1), o);
      OwnedAppend(DocsElements(init), DocElements(last.1), o);
    }
  }

  /** No two documents declare the same package or the same taxonomy. */
  ghost predicate OneOwner(docs: seq<Named>) {
    forall i, j :: 0 <= i < j < |docs| && DocOwner(docs[i].1) != Nobody ==> DocOwner(docs[i].1) != DocOwner(docs[j].1)
  }

  /** What a document owns of all the elements is exactly its own elements, in order. */
  lemma {:induction false} OwnedByDoc(docs: seq<Named>, i: nat, o: Owner)
    requires OneOwner(docs) && i < |docs| && DocOwner(docs[i].1) == o && o != Nobody
    ensures Owned(DocsElements(docs), o) == DocElements(docs[i].1)
    decreases |docs|
  {
    hide DocElements, DocOwner;
    var init, last := docs[..|docs| - 1], docs[|docs| - 1];
    OwnedAppend(DocsElements(init), DocElements(last.1), o);
    DocElementsOwner(last.1);
    if i == |docs| - 1 {
      UnownedDocs(init, o);
      AllOwned(DocElements(last.1), o);
    } else {
      OwnedByDoc(init, i, o);
      NoneOwned(DocElements(last.1), o);
    }
  }

  lemma OwnedWithPolicy(docs: seq<Named>, policy: Option<Value>, o: Owner)
    requires o != Nobody
    ensures Owned(Elements(docs, policy), o) == Owned(DocsElements(docs), o)
  {
    NoneOwned(PolicyElements(policy), o);
    OwnedAppend(DocsElements(docs), PolicyElements(policy), o);
  }

  // ---------------------------------------------------------------- what the gathered maps hold

  function Field(g: Gathered, section: Section): map<string, map<string, Value>> {
    match section
    case EntityType => g.types
    case EdgeType => g.edges
    case Struct => g.structs
    case ValidationRule => map[]
  }

  function Look(m: map<string, map<string, Value>>, pkg: string, name: string): Option<Value> {
    if pkg in m && name in m[pkg] then Some(m[pkg][name]) else None
  }

  predicate InSlot(e: Element, section: Section, pkg: string, name: string) {
    e.Definition? && e.section == section && e.pkg == pkg && e.name == name
  }

  /** Which of the gathered maps an element changes. */
  lemma PutParts(g: Gathered, e: Element)
    requires e.Definition?
    ensures var h := Absorb(g, e);
            && h.types == (if e.section == EntityType then Put(g.types, e.pkg, e.name, e.def) else g.types)
            && h.edges == (if e.section == EdgeType then Put(g.edges, e.pkg, e.name, e.def) else g.edges)
            && h.structs == (if e.section == Struct then Put(g.structs, e.pkg, e.name, e.def) else g.structs)
            && h.rules == (if e.section == ValidationRule then Push(g.rules, e.pkg, e.def) else g.rules)
            && h.imports == PutImports(g, e.pkg, e.imports).imports && h.terms == g.terms
  {
    hide Put, Push;
  }

  lemma OtherParts(g: Gathered, e: Element)
    requires !e.Definition?
    ensures Absorb(g, e).(terms := g.terms) == g
  {
  }

  lemma PutLooks(m: map<string, map<string, Value>>, p: string, n: string, def: Value, pkg: string, name: string)
    ensures Look(Put(m, p, n, def), pkg, name) == if p == pkg && n == name then Some(def) else Look(m, pkg, name)
    ensures Put(m, p, n, def).Keys == m.Keys + {p}
  {
  }

  lemma AbsorbedSlot(g: Gathered, e: Element, section: Section, pkg: string, name: string)
    requires section != ValidationRule
    ensures Look(Field(Absorb(g, e), section), pkg, name) ==
            if InSlot(e, section, pkg, name) then Some(e.def) else Look(Field(g, section), pkg, name)
  {
    hide Absorb, Put, Look;
    if e.Definition? {
      PutParts(g, e);
      PutLooks(Field(g, section), e.pkg, e.name, e.def, pkg, name);
    } else {
      OtherParts(g, e);
    }
  }

  /** A slot holds the definition of the elements that fill it, when they agree. */
  lemma {:induction false} SlotAbsorbed(es: seq<Element>, section: Section, pkg: string, name: string)
    requires section != ValidationRule
    requires forall e, f :: e in es && f in es && InSlot(e, section, pkg, name) && InSlot(f, section, pkg, name) ==> e.def == f.def
    ensures forall e :: e in es && InSlot(e, section, pkg, name) ==> Look(Field(AbsorbAll(es), section), pkg, name) == Some(e.def)
    ensures Look(Field(AbsorbAll(es), section), pkg, name).Some? ==> exists e :: e in es && InSlot(e, section, pkg, name)
  {
    hide Absorb, Look, Field, InSlot;
    if es != [] {
      var init, last := es[..|es| - 1], es[|es| - 1];
      assert es == init + [last];
      SlotAbsorbed(init, section, pkg, name);
      AbsorbedSlot(AbsorbAll(init), last, section, pkg, name);
      assert last in es;
    } else {
      assert Look(Field(NOTHING, section), pkg, name) == None by {
        NothingLooks(section, pkg, name);
      }
    }
  }

  lemma NothingLooks(section: Section, pkg: string, name: string)
    ensures Look(Field(NOTHING, section), pkg, name) == None
  {
  }

  lemma {:induction false} PackagesAbsorbed(es: seq<Element>, pkg: string)
    ensures pkg in PackageNames(AbsorbAll(es)) <==> Owned(es, Pkg(pkg)) != []
  {
    if es == [] {
    } else {
      var init, last := es[..|es| - 1], es[|es| - 1];
      PackagesAbsorbed(init, pkg);
      AbsorbedNames(AbsorbAll(init), last, pkg);
      hide Absorb, PackageNames, OwnerOf;
    }
  }

  lemma AbsorbedNames(g: Gathered, e: Element, pkg: string)
    ensures pkg in PackageNames(Absorb(g, e)) <==> pkg in PackageNames(g) || OwnerOf(e) == Pkg(pkg)
  {
    hide Absorb, Put, Push;
    if e.Definition? {
      PutParts(g, e);
      PutLooks(Field(g, e.section), e.pkg, e.name, e.def, pkg, "");
      assert Push(g.rules, e.pkg, e.def).Keys == g.rules.Keys + {e.pkg} by {
        PushKeys(g.rules, e.pkg, e.def);
      }
    } else {
      OtherParts(g, e);
    }
  }

  lemma PushKeys(m: map<string, seq<Value>>, key: string, x: Value)
    ensures Push(m, key, x).Keys == m.Keys + {key}
    ensures forall k :: k in Push(m, key, x) ==> Push(m, key, x)[k] == (if k in m then m[k] else []) + if k == key then [x] else []
  {
  }

  function RulesOf(g: Gathered, pkg: string): seq<Value> {
    if pkg in g.rules then g.rules[pkg] else []
  }

  function RuleDefs(es: seq<Element>): seq<Value> {
    if es == [] then []
    else
      var e := es[|es| - 1];
      RuleDefs(es[..|es| - 1]) + if e.Definition? && e.section == ValidationRule then [e.def] else []
  }

  lemma RuleDefsSnoc(es: seq<Element>, e: Element)
    ensures RuleDefs(es + [e]) == RuleDefs(es) + if e.Definition? && e.section == ValidationRule then [e.def] else []
  {
    assert (es + [e])[..|es|] == es;
  }

  lemma {:induction false} RulesAbsorbed(es: seq<Element>, pkg: string)
    ensures RulesOf(AbsorbAll(es), pkg) == RuleDefs(Owned(es, Pkg(pkg)))
  {
    if es == [] {
    } else {
      var init, last := es[..|es| - 1], es[|es| - 1];
      RulesAbsorbed(init, pkg);
      AbsorbedRules(AbsorbAll(init), last, pkg);
      RuleDefsSnoc(Owned(init, Pkg(pkg)), last);
      hide Absorb, OwnerOf, RulesOf, RuleDefs;
      assert Owned(init, Pkg(pkg)) + [] == Owned(init, Pkg(pkg));
    }
  }

  lemma AbsorbedRules(g: Gathered, e: Element, pkg: string)
    ensures RulesOf(Absorb(g, e), pkg) == RulesOf(g, pkg)
         + if OwnerOf(e) == Pkg(pkg) && e.Definition? && e.section == ValidationRule then [e.def] else []
  {
    hide Absorb, Push;
    if e.Definition? {
      PutParts(g, e);
      PushKeys(g.rules, e.pkg, e.def);
    } else {
      OtherParts(g, e);
    }
  }

  lemma {:induction false} RuleDefsAppend(a: seq<Element>, b: seq<Element>)
    ensures RuleDefs(a + b) == RuleDefs(a) + RuleDefs(b)
    decreases |b|
  {
    if b == [] {
      assert a + b == a;
    } else {
      RuleDefsAppend(a, b[..|b| - 1]);
      assert (a + b)[..|a + b| - 1] == a + b[..|b| - 1];
    }
  }

  lemma RuleDefsAround(left: seq<Element>, x: Element, right: seq<Element>)
    ensures multiset(RuleDefs(left + [x] + right)) == multiset(RuleDefs(left + right)) + multiset(RuleDefs([x]))
  {
    hide RuleDefs;
    RuleDefsAppend(left + [x], right);
    RuleDefsAppend(left, [x]);
    RuleDefsAppend(left, right);
  }

  lemma {:induction false} RuleDefsPermute(a: seq<Element>, b: seq<Element>)
    requires multiset(a) == multiset(b)
    ensures multiset(RuleDefs(a)) == multiset(RuleDefs(b))
    decreases |a|
  {
    hide RuleDefs;
    if a == [] {
      assert |multiset(b)| == |multiset(a)| == 0;
      assert b == [];
    } else {
      var x := a[0];
      assert x in multiset(a) && x in multiset(b);
      var i :| 0 <= i < |b| && b[i] == x;
      var left, right := b[..i], b[i + 1..];
      assert b == left + [x] + right;
      TakeOut(a, x, left, right);
      RuleDefsPermute(a[1..], left + right);
      RuleDefsAround(left, x, right);
      RuleDefsAround([], x, a[1..]);
      assert a == [] + [x] + a[1..] && [] + a[1..] == a[1..];
    }
  }

  function ImportsOf(g: Gathered, pkg: string): set<string> {
    if pkg in g.imports then g.imports[pkg] else {}
  }

  lemma AbsorbedImports(g: Gathered, e: Element, pkg: string)
    ensures ImportsOf(Absorb(g, e), pkg) ==
            ImportsOf(g, pkg) + if OwnerOf(e) == Pkg(pkg) then (set x | x in e.imports) else {}
  {
    hide Absorb, Put, Push;
    if e.Definition? {
      PutParts(g, e);
      if e.imports == [] {
        assert (set x | x in e.imports) == {};
      }
    } else {
      OtherParts(g, e);
    }
  }

  lemma {:induction false} ImportsAbsorbed(es: seq<Element>, pkg: string, x: string)
    ensures x in ImportsOf(AbsorbAll(es), pkg) <==> exists e :: e in Owned(es, Pkg(pkg)) && e.Definition? && x in e.imports
  {
    if es == [] {
    } else {
      var init, last := es[..|es| - 1], es[|es| - 1];
      ImportsAbsorbed(init, pkg, x);
      AbsorbedImports(AbsorbAll(init), last, pkg);
      OwnedMembers(init, Pkg(pkg));
      assert OwnerOf(last) == Pkg(pkg) ==> last.Definition?;
      hide Absorb, OwnerOf, ImportsOf;
      if x in ImportsOf(AbsorbAll(es), pkg) && OwnerOf(last) == Pkg(pkg) {
        assert last in Owned(es, Pkg(pkg));
      }
    }
  }

  function TermsOf(g: Gathered, tax: string): seq<Value> {
    if tax in g.terms then g.terms[tax] else []
  }

  function TermValues(es: seq<Element>): seq<Value> {
    if es == [] then []
    else
      var e := es[|es| - 1];
      TermValues(es[..|es| - 1]) + if e.Term? then [TermValue(e.name, e.parents, e.status)] else []
  }

  lemma AbsorbedTerms(g: Gathered, e: Element, tax: string)
    ensures TermsOf(Absorb(g, e), tax) == TermsOf(g, tax) + if OwnerOf(e) == Tax(tax) then [TermValue(e.name, e.parents, e.status)] else []
    ensures tax in Absorb(g, e).terms <==> tax in g.terms || OwnerOf(e) == Tax(tax)
  {
    hide TermValue, Push, PutDefinition, PutImports;
    match e {
      case Definition(_, _, _, _, _) =>
        hide Absorb;
        PutParts(g, e);
      case Term(t, name, parents, status) =>
        PushKeys(g.terms, t, TermValue(name, parents, status));
      case Policy(_, _) =>
    }
  }

  lemma TermValuesSnoc(es: seq<Element>, e: Element)
    requires e.Term?
    ensures TermValues(es + [e]) == TermValues(es) + [TermValue(e.name, e.parents, e.status)]
  {
    assert (es + [e])[..|es|] == es;
  }

  lemma {:induction false} TermsAbsorbed(es: seq<Element>, tax: string)
    ensures TermsOf(AbsorbAll(es), tax) == TermValues(Owned(es, Tax(tax)))
    ensures tax in AbsorbAll(es).terms <==> Owned(es, Tax(tax)) != []
  {
    if es == [] {
    } else {
      var init, last := es[..|es| - 1], es[|es| - 1];
      TermsAbsorbed(init, tax);
      AbsorbedTerms(AbsorbAll(init), last, tax);
      assert OwnerOf(last) == Tax(tax) ==> last.Term?;
      hide Absorb, OwnerOf, TermsOf, TermValue, TermValues;
      if OwnerOf(last) == Tax(tax) {
        TermValuesSnoc(Owned(init, Tax(tax)), last);
      } else {
        assert Owned(init, Tax(tax)) + [] == Owned(init, Tax(tax));
        assert TermsOf(AbsorbAll(init), tax) + [] == TermsOf(AbsorbAll(init), tax);
      }
    }
  }

  // ---------------------------------------------------------------- what a document's own elements are

  function SectionMap(v: Value): map<string, Value> {
    if v.Map? then v.m else map[]
  }

  function ListOf(v: Value): seq<Value> {
    if v.Seq? then v.items else []
  }

  /** The section of a loaded package. */
  function PackageSection(p: Package, section: Section): Value {
    match section
    case EntityType => p.types
    case EdgeType => p.edges
    case Struct => p.structs
    case ValidationRule => p.rules
  }

  function SectionKey(section: Section): string {
    match section
    case EntityType => "entity_types"
    case EdgeType => "edge_types"
    case Struct => "structs"
    case ValidationRule => "validation_rules"
  }

  lemma SectionAt(section: Section, pkg: string, v: Option<Value>, imports: seq<string>, e: Element)
    requires e in SectionElements(section, pkg, v, imports)
    ensures e.Definition? && e.section == section && e.pkg == pkg && e.imports == imports
    ensures e.name in SectionMap(v.GetOr(Null)) && e.def == SectionMap(v.GetOr(Null))[e.name]
  {
    var m := v.value.m;
    var names, es := Order.StringsInOrder(m.Keys), SectionElements(section, pkg, v, imports);
    hide Order.StringsInOrder;
    var i :| 0 <= i < |es| && es[i] == e;
    assert names[i] in names;
  }

  lemma SectionHas(section: Section, pkg: string, v: Option<Value>, imports: seq<string>, name: string)
    requires name in SectionMap(v.GetOr(Null))
    ensures exists e :: e in SectionElements(section, pkg, v, imports) && e.name == name
  {
    var m := v.value.m;
    var names, es := Order.StringsInOrder(m.Keys), SectionElements(section, pkg, v, imports);
    hide Order.StringsInOrder;
    assert name in names;
    var i :| 0 <= i < |names| && names[i] == name;
    assert es[i] in es && es[i].name == name;
  }

  lemma SectionSlots(section: Section, pkg: string, v: Option<Value>, imports: seq<string>, name: string)
    ensures forall e :: e in SectionElements(section, pkg, v, imports) ==>
              e.Definition? && e.section == section && e.pkg == pkg && e.imports == imports
    ensures forall e :: e in SectionElements(section, pkg, v, imports) && e.name == name ==>
              name in SectionMap(v.GetOr(Null)) && e.def == SectionMap(v.GetOr(Null))[name]
    ensures name in SectionMap(v.GetOr(Null)) ==> exists e :: e in SectionElements(section, pkg, v, imports) && e.name == name
  {
    hide SectionElements, SectionMap;
    forall e | e in SectionElements(section, pkg, v, imports)
      ensures e.Definition? && e.section == section && e.pkg == pkg && e.imports == imports
      ensures e.name in SectionMap(v.GetOr(Null)) && e.def == SectionMap(v.GetOr(Null))[e.name]
    {
      SectionAt(section, pkg, v, imports, e);
    }
    if name in SectionMap(v.GetOr(Null)) {
      SectionHas(section, pkg, v, imports, name);
    }
  }

  lemma RuleSlots(pkg: string, rules: seq<Value>, imports: seq<string>)
    ensures forall e :: e in RuleElements(pkg, rules, imports) ==>
              e.Definition? && e.section == ValidationRule && e.pkg == pkg && e.imports == imports
  {
  }

  lemma {:induction false} RuleElementsDefs(pkg: string, rules: seq<Value>, imports: seq<string>)
    ensures RuleDefs(RuleElements(pkg, rules, imports)) == rules
  {
    if rules == [] {
    } else {
      var n := |rules| - 1;
      RuleElementsDefs(pkg, rules[..n], imports);
      assert RuleElements(pkg, rules, imports)[..n] == RuleElements(pkg, rules[..n], imports);
      assert rules == rules[..n] + [rules[n]];
    }
  }

  lemma {:induction false} NoRuleDefs(es: seq<Element>)
    requires forall e :: e in es ==> e.Definition? && e.section != ValidationRule
    ensures RuleDefs(es) == []
  {
    if es == [] {
    } else {
      NoRuleDefs(es[..|es| - 1]);
      assert es[|es| - 1] in es;
    }
  }

  /** The sections' elements, one list per section. */
  function Part(doc: Value, pkg: string, section: Section): seq<Element> {
    SectionElements(section, pkg, Get(doc, SectionKey(section)), DocImports(doc))
  }

  function RulePart(doc: Value, pkg: string): seq<Element> {
    RuleElements(pkg, GetSeq(doc, "validation_rules").GetOr([]), DocImports(doc))
  }

  lemma DocParts(doc: Value, pkg: string)
    requires DocOwner(doc) == Pkg(pkg)
    ensures DocElements(doc) == Part(doc, pkg, EntityType) + Part(doc, pkg, EdgeType) + Part(doc, pkg, Struct) + RulePart(doc, pkg)
  {
    hide SectionElements, RuleElements, DocImports;
  }

  lemma DocMembers(doc: Value, pkg: string, e: Element)
    requires DocOwner(doc) == Pkg(pkg)
    ensures e in DocElements(doc) <==>
            e in Part(doc, pkg, EntityType) || e in Part(doc, pkg, EdgeType) || e in Part(doc, pkg, Struct) || e in RulePart(doc, pkg)
  {
    hide DocElements, Part, RulePart;
    DocParts(doc, pkg);
  }

  lemma PartHasNoRules(doc: Value, pkg: string, section: Section)
    requires section != ValidationRule
    ensures RuleDefs(Part(doc, pkg, section)) == []
  {
    hide SectionElements, DocImports, RuleDefs, SectionKey;
    SectionSlots(section, pkg, Get(doc, SectionKey(section)), DocImports(doc), "");
    NoRuleDefs(Part(doc, pkg, section));
  }

  lemma DocRules(doc: Value, pkg: string)
    requires DocOwner(doc) == Pkg(pkg)
    ensures RuleDefs(DocElements(doc)) == GetSeq(doc, "validation_rules").GetOr([])
  {
    var a, b, c, r := Part(doc, pkg, EntityType), Part(doc, pkg, EdgeType), Part(doc, pkg, Struct), RulePart(doc, pkg);
    hide *;
    DocParts(doc, pkg);
    PartHasNoRules(doc, pkg, EntityType);
    PartHasNoRules(doc, pkg, EdgeType);
    PartHasNoRules(doc, pkg, Struct);
    RulePartDefs(doc, pkg);
    RuleDefsAppend(a + b + c, r);
    RuleDefsAppend(a + b, c);
    RuleDefsAppend(a, b);
  }

  lemma RulePartDefs(doc: Value, pkg: string)
    ensures RuleDefs(RulePart(doc, pkg)) == GetSeq(doc, "validation_rules").GetOr([])
  {
    RuleElementsDefs(pkg, GetSeq(doc, "validation_rules").GetOr([]), DocImports(doc));
  }

  lemma DocSlot(doc: Value, pkg: string, section: Section, name: string)
    requires DocOwner(doc) == Pkg(pkg) && section != ValidationRule
    ensures forall e :: e in DocElements(doc) && InSlot(e, section, pkg, name) ==>
              var m := SectionMap(PackageSection(PackageOf(doc), section)); name in m && e.def == m[name]
    ensures name in SectionMap(PackageSection(PackageOf(doc), section)) ==>
              exists e :: e in DocElements(doc) && InSlot(e, section, pkg, name)
  {
    var imports := DocImports(doc);
    SectionIs(doc, section);
    SectionSlots(EntityType, pkg, Get(doc, "entity_types"), imports, name);
    SectionSlots(EdgeType, pkg, Get(doc, "edge_types"), imports, name);
    SectionSlots(Struct, pkg, Get(doc, "structs"), imports, name);
    SectionSlots(section, pkg, Get(doc, SectionKey(section)), imports, name);
    RuleSlots(pkg, GetSeq(doc, "validation_rules").GetOr([]), imports);
    hide DocElements, SectionElements, RuleElements, DocOwner, DocImports, ImportNames, PackageOf, PackageSection, SectionMap;
    forall e | e in DocElements(doc) && InSlot(e, section, pkg, name) ensures e in Part(doc, pkg, section) {
      DocMembers(doc, pkg, e);
    }
    if name in SectionMap(PackageSection(PackageOf(doc), section)) {
      var e :| e in SectionElements(section, pkg, Get(doc, SectionKey(section)), imports) && e.name == name;
      DocMembers(doc, pkg, e);
      assert e in DocElements(doc) && InSlot(e, section, pkg, name);
    }
  }

  lemma SectionIs(doc: Value, section: Section)
    ensures PackageSection(PackageOf(doc), section) == Get(doc, SectionKey(section)).GetOr(Null)
  {
    hide ImportNames;
  }

  lemma DocElementImports(doc: Value, pkg: string)
    requires DocOwner(doc) == Pkg(pkg)
    ensures forall e :: e in DocElements(doc) ==> e.Definition? && e.imports == DocImports(doc)
  {
    var imports := DocImports(doc);
    SectionSlots(EntityType, pkg, Get(doc, "entity_types"), imports, "");
    SectionSlots(EdgeType, pkg, Get(doc, "edge_types"), imports, "");
    SectionSlots(Struct, pkg, Get(doc, "structs"), imports, "");
    RuleSlots(pkg, GetSeq(doc, "validation_rules").GetOr([]), imports);
    hide DocElements, SectionElements, RuleElements, DocOwner, DocImports;
    forall e | e in DocElements(doc) ensures e.Definition? && e.imports == imports {
      DocMembers(doc, pkg, e);
    }
  }

  // ---------------------------------------------------------------- packages

  /** Equal section by section; rules in any order, imports as sets. */
  ghost predicate SamePackage(p: Package, q: Package) {
    && (forall section :: section != ValidationRule ==> SectionMap(PackageSection(p, section)) == SectionMap(PackageSection(q, section)))
    && multiset(ListOf(p.rules)) == multiset(ListOf(q.rules))
    && (set x | x in p.imports) == (set x | x in q.imports)
  }

  /** `own` lists the elements of `doc`, in some order, and `g` was gathered from `read`, whose share for the package is `own`. */
  ghost predicate Shares(read: seq<Element>, doc: Value, pkg: string) {
    DocOwner(doc) == Pkg(pkg) && multiset(Owned(read, Pkg(pkg))) == multiset(DocElements(doc))
  }

  lemma SharedMembers(read: seq<Element>, doc: Value, pkg: string)
    requires Shares(read, doc, pkg)
    ensures forall e :: e in read && OwnerOf(e) == Pkg(pkg) <==> e in DocElements(doc)
    ensures forall e :: e in Owned(read, Pkg(pkg)) <==> e in DocElements(doc)
  {
    hide DocElements, OwnerOf, Owned;
    SameMembers(Owned(read, Pkg(pkg)), DocElements(doc));
    OwnedMembers(read, Pkg(pkg));
  }

  lemma SlotShared(read: seq<Element>, doc: Value, pkg: string, section: Section, name: string)
    requires Shares(read, doc, pkg) && section != ValidationRule
    ensures Look(Field(AbsorbAll(read), section), pkg, name) == Get(Map(SectionMap(PackageSection(PackageOf(doc), section))), name)
  {
    SharedMembers(read, doc, pkg);
    DocSlot(doc, pkg, section, name);
    assert forall e :: InSlot(e, section, pkg, name) ==> OwnerOf(e) == Pkg(pkg);
    hide DocElements, OwnerOf, Owned, InSlot, Look, Field, PackageSection, PackageOf, DocOwner, AbsorbAll;
    assert forall e :: e in read && InSlot(e, section, pkg, name) ==> e in DocElements(doc);
    SlotAbsorbed(read, section, pkg, name);
  }

  lemma AssembledSection(g: Gathered, pkg: string, section: Section, name: string)
    requires section != ValidationRule
    ensures Get(Map(SectionMap(PackageSection(AssemblePackage(g, pkg), section))), name) == Look(Field(g, section), pkg, name)
  {
    hide Order.StringsInOrder;
  }

  lemma SectionShared(read: seq<Element>, doc: Value, pkg: string, section: Section)
    requires Shares(read, doc, pkg) && section != ValidationRule
    ensures SectionMap(PackageSection(AssemblePackage(AbsorbAll(read), pkg), section)) == SectionMap(PackageSection(PackageOf(doc), section))
  {
    hide *;
    var p, q := SectionMap(PackageSection(AssemblePackage(AbsorbAll(read), pkg), section)), SectionMap(PackageSection(PackageOf(doc), section));
    forall name ensures Get(Map(p), name) == Get(Map(q), name) {
      AssembledSection(AbsorbAll(read), pkg, section, name);
      SlotShared(read, doc, pkg, section, name);
    }
    SameFields(p, q);
  }

  lemma AssembledRest(g: Gathered, pkg: string)
    ensures ListOf(AssemblePackage(g, pkg).rules) == RulesOf(g, pkg)
    ensures (set x | x in AssemblePackage(g, pkg).imports) == ImportsOf(g, pkg)
  {
    hide MapOrNull, Order.StringLess;
  }

  lemma RulesShared(read: seq<Element>, doc: Value, pkg: string)
    requires Shares(read, doc, pkg)
    ensures multiset(RulesOf(AbsorbAll(read), pkg)) == multiset(ListOf(PackageOf(doc).rules))
  {
    assert ListOf(PackageOf(doc).rules) == GetSeq(doc, "validation_rules").GetOr([]) by {
      hide ImportNames;
    }
    hide DocElements, PackageOf, RulesOf, RuleDefs, Owned, DocOwner, ListOf;
    RulesAbsorbed(read, pkg);
    RuleDefsPermute(Owned(read, Pkg(pkg)), DocElements(doc));
    DocRules(doc, pkg);
  }

  lemma ImportsShared(read: seq<Element>, doc: Value, pkg: string)
    requires Shares(read, doc, pkg) && DocElements(doc) != []
    ensures ImportsOf(AbsorbAll(read), pkg) == set x | x in PackageOf(doc).imports
  {
    assert PackageOf(doc).imports == DocImports(doc) by {
      hide ImportNames;
    }
    SharedMembers(read, doc, pkg);
    DocElementImports(doc, pkg);
    hide DocElements, PackageOf, ImportsOf, Owned, DocOwner, DocImports, Shares, AbsorbAll;
    assert DocElements(doc)[0] in DocElements(doc);
    forall x ensures x in ImportsOf(AbsorbAll(read), pkg) <==> x in DocImports(doc) {
      ImportsAbsorbed(read, pkg, x);
    }
  }

  lemma PackageShared(read: seq<Element>, doc: Value, pkg: string)
    requires Shares(read, doc, pkg) && DocElements(doc) != []
    ensures SamePackage(AssemblePackage(AbsorbAll(read), pkg), PackageOf(doc))
  {
    hide Shares, DocElements, AssemblePackage, AbsorbAll, PackageOf, PackageSection, SectionMap, ListOf, RulesOf, ImportsOf;
    forall section | section != ValidationRule
      ensures SectionMap(PackageSection(AssemblePackage(AbsorbAll(read), pkg), section)) == SectionMap(PackageSection(PackageOf(doc), section))
    {
      SectionShared(read, doc, pkg, section);
    }
    AssembledRest(AbsorbAll(read), pkg);
    RulesShared(read, doc, pkg);
    ImportsShared(read, doc, pkg);
  }

  // ---------------------------------------------------------------- taxonomies

  /** Terms of one name agree on their parents. */
  ghost predicate TermsAgree(terms: seq<Value>) {
    forall t, u :: t in terms && u in terms && GetStr(t, "name").Some? && GetStr(t, "name") == GetStr(u, "name") ==> TermParents(t) == TermParents(u)
  }

  /** Where the terms agree, the term map is their graph. */
  lemma {:induction false} TermMapIs(terms: seq<Value>, name: string)
    requires TermsAgree(terms)
    ensures name in TermMap(terms) <==> exists t :: t in terms && GetStr(t, "name") == Some(name)
    ensures forall t :: t in terms && GetStr(t, "name") == Some(name) ==> name in TermMap(terms) && TermMap(terms)[name] == TermParents(t)
  {
    hide TermParents;
    if terms == [] {
    } else {
      var init, last := terms[..|terms| - 1], terms[|terms| - 1];
      assert terms == init + [last];
      assert last in terms;
      TermMapIs(init, name);
    }
  }

  /** A term element stands for a term value of the document. */
  ghost predicate Stands(e: Element, t: Value) {
    e.Term? && GetStr(t, "name") == Some(e.name) && Strings(e.parents) == TermParents(t)
  }

  lemma {:induction false} TermBehind(tax: string, terms: seq<Value>, e: Element) returns (t: Value)
    requires e in TermElements(tax, terms)
    ensures t in terms && Stands(e, t)
  {
    var first, rest := terms[0], terms[1..];
    assert terms == [first] + rest;
    if GetStr(first, "name").Some? && e == TermElements(tax, terms)[0] {
      t := first;
    } else {
      assert TermElements(tax, terms) == TermElements(tax, rest) || TermElements(tax, terms)[1..] == TermElements(tax, rest);
      t := TermBehind(tax, rest, e);
    }
  }

  lemma {:induction false} ElementFor(tax: string, terms: seq<Value>, t: Value) returns (e: Element)
    requires t in terms && GetStr(t, "name").Some?
    ensures e in TermElements(tax, terms) && Stands(e, t)
  {
    if t == terms[0] {
      e := TermElements(tax, terms)[0];
    } else {
      assert terms == [terms[0]] + terms[1..];
      e := ElementFor(tax, terms[1..], t);
    }
  }

  lemma {:induction false} ElementBehind(es: seq<Element>, v: Value) returns (e: Element)
    requires v in TermValues(es)
    ensures e in es && Stands(e, v)
  {
    var init, last := es[..|es| - 1], es[|es| - 1];
    assert es == init + [last];
    if last.Term? && v == TermValue(last.name, last.parents, last.status) {
      TermValueReads(last.name, last.parents, last.status);
      e := last;
    } else {
      e := ElementBehind(init, v);
    }
  }

  lemma {:induction false} ValueFor(es: seq<Element>, e: Element) returns (v: Value)
    requires e in es && e.Term?
    ensures v in TermValues(es) && Stands(e, v)
  {
    var init, last := es[..|es| - 1], es[|es| - 1];
    assert es == init + [last];
    if e == last {
      TermValueReads(last.name, last.parents, last.status);
      v := TermValue(last.name, last.parents, last.status);
    } else {
      v := ValueFor(init, e);
    }
  }

  lemma TermValueReads(name: string, parents: seq<Value>, status: Option<string>)
    ensures var v := TermValue(name, parents, status); GetStr(v, "name") == Some(name) && TermParents(v) == Strings(parents)
  {
    assert GetSeq(TermValue(name, parents, status), "parents") == Some(parents);
  }

  ghost predicate SameTerm(x: Value, y: Value) {
    GetStr(x, "name") == GetStr(y, "name") && TermParents(x) == TermParents(y)
  }

  /** Every named term of the first list is also in the second. */
  ghost predicate Covered(xs: seq<Value>, ys: seq<Value>) {
    forall x :: x in xs && GetStr(x, "name").Some? ==> exists y :: y in ys && SameTerm(x, y)
  }

  lemma CoveredBy(xs: seq<Value>, ys: seq<Value>, x: Value) returns (y: Value)
    requires Covered(xs, ys) && x in xs && GetStr(x, "name").Some?
    ensures y in ys && SameTerm(x, y)
  {
    hide SameTerm;
    y :| y in ys && SameTerm(x, y);
  }

  lemma CoveredAgree(xs: seq<Value>, ys: seq<Value>)
    requires TermsAgree(ys) && Covered(xs, ys)
    ensures TermsAgree(xs)
  {
    hide TermParents, Covered;
    forall t, u | t in xs && u in xs && GetStr(t, "name").Some? && GetStr(t, "name") == GetStr(u, "name") ensures TermParents(t) == TermParents(u) {
      var y := CoveredBy(xs, ys, t);
      var z := CoveredBy(xs, ys, u);
    }
  }

  lemma CoveredKey(xs: seq<Value>, ys: seq<Value>, name: string)
    requires TermsAgree(xs) && TermsAgree(ys) && Covered(xs, ys) && name in TermMap(xs)
    ensures name in TermMap(ys) && TermMap(ys)[name] == TermMap(xs)[name]
  {
    TermMapIs(xs, name);
    TermMapIs(ys, name);
    hide TermParents, Covered, TermMap;
    var x :| x in xs && GetStr(x, "name") == Some(name);
    var y := CoveredBy(xs, ys, x);
  }

  /** Two lists that hold the same terms have the same term map. */
  lemma SameTermMap(xs: seq<Value>, ys: seq<Value>)
    requires TermsAgree(ys) && Covered(xs, ys) && Covered(ys, xs)
    ensures TermMap(xs) == TermMap(ys)
  {
    hide TermParents, TermMap, Covered, TermsAgree;
    CoveredAgree(xs, ys);
    forall name | name in TermMap(xs) ensures name in TermMap(ys) && TermMap(ys)[name] == TermMap(xs)[name] {
      CoveredKey(xs, ys, name);
    }
    forall name | name in TermMap(ys) ensures name in TermMap(xs) {
      CoveredKey(ys, xs, name);
    }
  }

  lemma TermsCovered(own: seq<Element>, tax: string, terms: seq<Value>)
    requires forall e :: e in own <==> e in TermElements(tax, terms)
    ensures Covered(TermValues(own), terms) && Covered(terms, TermValues(own))
  {
    TermsOwner(tax, terms);
    hide TermElements, TermValues, TermParents;
    forall x | x in TermValues(own) ensures exists y :: y in terms && SameTerm(x, y) {
      var e := ElementBehind(own, x);
      var y := TermBehind(tax, terms, e);
      assert SameTerm(x, y);
    }
    forall y | y in terms && GetStr(y, "name").Some? ensures exists x :: x in TermValues(own) && SameTerm(y, x) {
      var e := ElementFor(tax, terms, y);
      var x := ValueFor(own, e);
      assert SameTerm(y, x);
    }
  }

  lemma TaxonomyShared(read: seq<Element>, doc: Value, tax: string)
    requires DocOwner(doc) == Tax(tax) && multiset(Owned(read, Tax(tax))) == multiset(DocElements(doc))
    requires TermsAgree(GetSeq(doc, "terms").GetOr([]))
    ensures TermMap(TermsOf(AbsorbAll(read), tax)) == TermMap(GetSeq(doc, "terms").GetOr([]))
  {
    var own, terms := Owned(read, Tax(tax)), GetSeq(doc, "terms").GetOr([]);
    assert DocElements(doc) == TermElements(tax, terms);
    hide DocElements, DocOwner, TermElements, AbsorbAll, TermsOf, Owned, TermValues, TermsAgree, Covered, TermMap;
    TermsAbsorbed(read, tax);
    SameMembers(own, TermElements(tax, terms));
    TermsCovered(own, tax, terms);
    SameTermMap(TermValues(own), terms);
  }

  // ---------------------------------------------------------------- the round trip

  /** The document states an ontology, but not by a string: it is not loaded, yet compiled when it states a taxonomy. */
  predicate Misnamed(doc: Value) {
    Get(doc, "ontology").Some? && GetStr(doc, "ontology").None?
  }

  /** What a document declares has elements, terms of one name agree, and what is not loaded has none. */
  ghost predicate Survives(doc: Value) {
    if Misnamed(doc) then DocElements(doc) == []
    else
      && (DocOwner(doc) != Nobody ==> DocElements(doc) != [])
      && (DocOwner(doc).Tax? ==> TermsAgree(GetSeq(doc, "terms").GetOr([])))
  }

  /** Each document declares its own package or taxonomy, and survives compilation. */
  ghost predicate Proper(docs: seq<Named>) {
    OneOwner(docs) && forall d :: d in docs ==> Survives(d.1)
  }

  /** The registries agree, except that the read-back one also holds the seeded meta package. */
  ghost predicate ReadsBack(r: Registry, l: Registry) {
    && (forall p :: p in r.packages <==> p == "meta" || p in l.packages)
    && (forall p :: p in l.packages ==> SamePackage(r.packages[p], l.packages[p]))
    && ("meta" !in l.packages ==> r.packages["meta"] == META_PACKAGE)
    && r.taxonomies == l.taxonomies
  }

  /** Compiled under these ids and read back, the documents give the registry they load. */
  ghost predicate RoundTrips(parse: Parser, sha: Sha, show: Printer, mint: Mint, docs: seq<Named>, policy: Option<Value>) {
    var r := FromState(parse, Installed(sha, show, mint, Elements(docs, policy)));
    r.Ok? && ReadsBack(r.value, LoadDocs(docs))
  }

  lemma SurvivorOwns(doc: Value)
    requires Survives(doc)
    ensures DocElements(doc) != [] <==> DocOwner(doc) != Nobody && !Misnamed(doc)
  {
    hide TermsAgree, SectionElements, RuleElements, TermElements;
  }

  lemma OwnedOf(docs: seq<Named>, policy: Option<Value>, read: seq<Element>, o: Owner)
    requires OneOwner(docs) && multiset(read) == multiset(Elements(docs, policy)) && o != Nobody
    ensures forall d :: d in docs && DocOwner(d.1) == o ==> multiset(Owned(read, o)) == multiset(DocElements(d.1))
    ensures Owned(read, o) != [] <==> exists d :: d in docs && DocOwner(d.1) == o && DocElements(d.1) != []
  {
    OwnedPermutes(read, Elements(docs, policy), o);
    OwnedWithPolicy(docs, policy, o);
    hide DocElements, DocOwner, Elements, Owned, DocsElements;
    forall d | d in docs && DocOwner(d.1) == o
      ensures multiset(Owned(read, o)) == multiset(DocElements(d.1)) && (Owned(read, o) != [] <==> DocElements(d.1) != [])
    {
      var i :| 0 <= i < |docs| && docs[i] == d;
      OwnedByDoc(docs, i, o);
      assert multiset(Owned(read, o)) == multiset(DocElements(d.1));
      assert |multiset(DocElements(d.1))| == |DocElements(d.1)| && |multiset(Owned(read, o))| == |Owned(read, o)|;
    }
    if forall d :: d in docs ==> DocOwner(d.1) != o {
      UnownedDocs(docs, o);
      assert |multiset(Owned(read, o))| == 0;
    }
  }

  lemma DeclaresIsOwner(v: Value)
    ensures forall pkg :: Declares(v, pkg) <==> DocOwner(v) == Pkg(pkg)
    ensures forall tax :: DeclaresTaxonomy(v, tax) <==> DocOwner(v) == Tax(tax) && !Misnamed(v)
    ensures DocOwner(v).Pkg? ==> !Misnamed(v)
  {
  }

  lemma SoleOwner(docs: seq<Named>, v: Value, w: Value)
    requires OneOwner(docs) && Filed(docs, v) && Filed(docs, w)
    requires DocOwner(v) == DocOwner(w) != Nobody
    ensures v == w
  {
    hide DocOwner;
    var m :| (m, v) in docs;
    var n :| (n, w) in docs;
    var i :| 0 <= i < |docs| && docs[i] == (m, v);
    var j :| 0 <= j < |docs| && docs[j] == (n, w);
    if i < j {
      assert DocOwner(docs[i].1) != DocOwner(docs[j].1);
    } else if j < i {
      assert DocOwner(docs[j].1) != DocOwner(docs[i].1);
    }
  }

  /** The same for the documents as values. */
  lemma OwnedFiled(docs: seq<Named>, policy: Option<Value>, read: seq<Element>, o: Owner)
    requires OneOwner(docs) && multiset(read) == multiset(Elements(docs, policy)) && o != Nobody
    ensures forall v :: Filed(docs, v) && DocOwner(v) == o ==> multiset(Owned(read, o)) == multiset(DocElements(v))
    ensures Owned(read, o) != [] <==> exists v :: Filed(docs, v) && DocOwner(v) == o && DocElements(v) != []
  {
    hide OneOwner, Elements, Owned, DocElements, DocOwner;
    OwnedOf(docs, policy, read, o);
    forall v | Filed(docs, v) && DocOwner(v) == o ensures multiset(Owned(read, o)) == multiset(DocElements(v)) && (DocElements(v) != [] ==> Owned(read, o) != []) {
      var n :| (n, v) in docs;
      assert DocOwner((n, v).1) == o;
    }
    if Owned(read, o) != [] {
      var d :| d in docs && DocOwner(d.1) == o && DocElements(d.1) != [];
      assert (d.0, d.1) in docs;
      assert Filed(docs, d.1);
    }
  }

  /** The documents are loaded, each once. */
  ghost predicate Loads(docs: seq<Named>, all: seq<Value>) {
    OneOwner(docs) && forall v :: v in all <==> Filed(docs, v)
  }

  lemma ProperSurvives(docs: seq<Named>, v: Value)
    requires Proper(docs) && Filed(docs, v)
    ensures Survives(v)
  {
    hide Survives, OneOwner;
    var n :| (n, v) in docs;
    assert Survives((n, v).1);
  }

  /** A package is loaded from the one document that declares it. */
  lemma PackageFrom(docs: seq<Named>, all: seq<Value>, pkg: string)
    requires Loads(docs, all)
    ensures pkg in RegisterAll(all).packages <==> exists d :: d in all && DocOwner(d) == Pkg(pkg)
    ensures forall d :: d in all && DocOwner(d) == Pkg(pkg) ==> pkg in RegisterAll(all).packages && RegisterAll(all).packages[pkg] == PackageOf(d)
  {
    hide DocOwner, RegisterAll, Declares, Filed, PackageOf, OneOwner, Misnamed;
    forall d ensures Declares(d, pkg) <==> DocOwner(d) == Pkg(pkg) {
      DeclaresIsOwner(d);
    }
    forall d, e | d in all && e in all && Declares(d, pkg) && Declares(e, pkg) ensures d == e {
      SoleOwner(docs, d, e);
    }
    PackageLoaded(all, pkg);
  }

  /** So is a taxonomy, unless the document is misnamed. */
  lemma TaxonomyFrom(docs: seq<Named>, all: seq<Value>, tax: string)
    requires Loads(docs, all)
    ensures tax in RegisterAll(all).taxonomies <==> exists d :: d in all && DocOwner(d) == Tax(tax) && !Misnamed(d)
    ensures forall d :: d in all && DocOwner(d) == Tax(tax) && !Misnamed(d) ==>
              tax in RegisterAll(all).taxonomies && RegisterAll(all).taxonomies[tax] == TaxonomyOf(d)
  {
    hide DocOwner, RegisterAll, DeclaresTaxonomy, Filed, TaxonomyOf, OneOwner, Misnamed;
    forall d ensures DeclaresTaxonomy(d, tax) <==> DocOwner(d) == Tax(tax) && !Misnamed(d) {
      DeclaresIsOwner(d);
    }
    forall d, e | d in all && e in all && DeclaresTaxonomy(d, tax) && DeclaresTaxonomy(e, tax) ensures d == e {
      SoleOwner(docs, d, e);
    }
    TaxonomyLoaded(all, tax);
  }

  lemma PackageAgrees(docs: seq<Named>, all: seq<Value>, policy: Option<Value>, read: seq<Element>, pkg: string)
    requires Loads(docs, all) && Proper(docs) && multiset(read) == multiset(Elements(docs, policy))
    ensures pkg in PackageNames(AbsorbAll(read)) <==> pkg in RegisterAll(all).packages
    ensures pkg in RegisterAll(all).packages ==> SamePackage(AssemblePackage(AbsorbAll(read), pkg), RegisterAll(all).packages[pkg])
  {
    var o := Pkg(pkg);
    PackageFrom(docs, all, pkg);
    hide Elements, Owned, DocElements, DocOwner, AbsorbAll, RegisterAll, AssemblePackage, SamePackage, Filed, PackageNames, PackageOf, Survives, OneOwner, Misnamed;
    OwnedFiled(docs, policy, read, o);
    PackagesAbsorbed(read, pkg);
    forall v | v in all && DocOwner(v) == o ensures DocElements(v) != [] {
      ProperSurvives(docs, v);
      SurvivorOwns(v);
      DeclaresIsOwner(v);
    }
    if pkg in RegisterAll(all).packages {
      var d :| d in all && DocOwner(d) == o;
      PackageShared(read, d, pkg);
    }
  }

  lemma TaxonomyAgrees(docs: seq<Named>, all: seq<Value>, policy: Option<Value>, read: seq<Element>, tax: string)
    requires Loads(docs, all) && Proper(docs) && multiset(read) == multiset(Elements(docs, policy))
    ensures tax in AbsorbAll(read).terms <==> tax in RegisterAll(all).taxonomies
    ensures tax in AbsorbAll(read).terms ==> RegisterAll(all).taxonomies[tax] == Taxonomy(TermMap(AbsorbAll(read).terms[tax]))
  {
    var o := Tax(tax);
    TaxonomyFrom(docs, all, tax);
    hide Elements, Owned, DocElements, DocOwner, AbsorbAll, RegisterAll, Filed, TermMap, Survives, OneOwner, Misnamed, TermsAgree;
    OwnedFiled(docs, policy, read, o);
    TermsAbsorbed(read, tax);
    forall v | v in all && DocOwner(v) == o ensures DocElements(v) != [] <==> !Misnamed(v) {
      ProperSurvives(docs, v);
      SurvivorOwns(v);
    }
    if tax in AbsorbAll(read).terms {
      var d :| d in all && DocOwner(d) == o && !Misnamed(d);
      ProperSurvives(docs, d);
      SurvivorAgrees(d);
      TaxonomyShared(read, d, tax);
    }
  }

  lemma SurvivorAgrees(doc: Value)
    requires Survives(doc) && !Misnamed(doc) && DocOwner(doc).Tax?
    ensures TermsAgree(GetSeq(doc, "terms").GetOr([]))
  {
    hide DocElements, TermsAgree;
  }

  lemma AssembledAgrees(docs: seq<Named>, all: seq<Value>, policy: Option<Value>, read: seq<Element>)
    requires Loads(docs, all) && Proper(docs) && multiset(read) == multiset(Elements(docs, policy))
    ensures ReadsBack(Assemble(AbsorbAll(read)), RegisterAll(all))
  {
    hide Proper, Elements, AbsorbAll, RegisterAll, AssemblePackage, SamePackage, PackageNames, TermMap, Loads;
    var g, l := AbsorbAll(read), RegisterAll(all);
    forall p ensures (p in PackageNames(g) <==> p in l.packages) && (p in l.packages ==> SamePackage(AssemblePackage(g, p), l.packages[p])) {
      PackageAgrees(docs, all, policy, read, p);
    }
    forall t ensures (t in g.terms <==> t in l.taxonomies) && (t in g.terms ==> l.taxonomies[t] == Taxonomy(TermMap(g.terms[t]))) {
      TaxonomyAgrees(docs, all, policy, read, t);
    }
    assert Assemble(g).taxonomies == l.taxonomies;
  }

  /**
   * Compiling documents that each declare their own package or taxonomy, and deriving a registry
   * from the state that holds the compiled nodes, gives the registry the documents load.
   */
  lemma CompiledReadsBack(parse: Parser, sha: Sha, show: Printer, mint: Mint, docs: seq<Named>, policy: Option<Value>)
    requires Proper(docs)
    requires DistinctIds(mint, |Elements(docs, policy)|) && AllPrint(parse, show, Elements(docs, policy))
    ensures RoundTrips(parse, sha, show, mint, docs, policy)
  {
    hide Survives, OneOwner, Elements, DistinctIds, AllPrint, FromState, Installed, RegisterAll, Assemble, AbsorbAll, ReadsBack, Buckets, FirstNames, Filed;
    var read := ReadBack(parse, sha, show, mint, Elements(docs, policy));
    GroupedMembers(docs);
    AssembledAgrees(docs, Buckets(docs, FirstNames(docs)), policy, read);
  }
}
