/**
 * Loading the projected documents gives the registry derived from the state
 * (crates/allod-core/src/schemaops.rs:194-390).
 */
module SchemaProjection {
  import opened Text
  import opened Values
  import opened Order
  import opened Objects
  import opened Registries
  import opened Meta
  import opened SchemaOps

  // ---------------------------------------------------------------- what loading yields

  predicate Declares(doc: Value, pkg: string) {
    GetStr(doc, "ontology") == Some(pkg)
  }

  predicate DeclaresTaxonomy(doc: Value, tax: string) {
    Get(doc, "ontology").None? && GetStr(doc, "taxonomy") == Some(tax)
  }

  function TaxonomyOf(doc: Value): Taxonomy {
    Taxonomy(TermMap(GetSeq(doc, "terms").GetOr([])))
  }

  lemma RegisteredPackage(reg: Registry, doc: Value, pkg: string)
    ensures var r := RegisterDoc(reg, doc);
            if Declares(doc, pkg) then pkg in r.packages && r.packages[pkg] == PackageOf(doc)
            else (pkg in r.packages <==> pkg in reg.packages) && (pkg in reg.packages ==> r.packages[pkg] == reg.packages[pkg])
  {
  }

  lemma RegisteredTaxonomy(reg: Registry, doc: Value, tax: string)
    ensures var r := RegisterDoc(reg, doc);
            if DeclaresTaxonomy(doc, tax) then tax in r.taxonomies && r.taxonomies[tax] == TaxonomyOf(doc)
            else (tax in r.taxonomies <==> tax in reg.taxonomies) && (tax in reg.taxonomies ==> r.taxonomies[tax] == reg.taxonomies[tax])
  {
  }

  /** A package is loaded exactly when some document declares it; with one declaration, as declared there. */
  lemma {:induction false} PackageLoaded(docs: seq<Value>, pkg: string)
    requires forall d, e :: d in docs && e in docs && Declares(d, pkg) && Declares(e, pkg) ==> d == e
    ensures pkg in RegisterAll(docs).packages <==> exists d :: d in docs && Declares(d, pkg)
    ensures forall d :: d in docs && Declares(d, pkg) ==> pkg in RegisterAll(docs).packages && RegisterAll(docs).packages[pkg] == PackageOf(d)
  {
    hide RegisterDoc, PackageOf, Declares;
    if docs == [] {
    } else {
      var init, last := docs[..|docs| - 1], docs[|docs| - 1];
      assert docs == init + [last];
      PackageLoaded(init, pkg);
      RegisteredPackage(RegisterAll(init), last, pkg);
      assert last in docs;
    }
  }

  lemma {:induction false} TaxonomyLoaded(docs: seq<Value>, tax: string)
    requires forall d, e :: d in docs && e in docs && DeclaresTaxonomy(d, tax) && DeclaresTaxonomy(e, tax) ==> d == e
    ensures tax in RegisterAll(docs).taxonomies <==> exists d :: d in docs && DeclaresTaxonomy(d, tax)
    ensures forall d :: d in docs && DeclaresTaxonomy(d, tax) ==>
              tax in RegisterAll(docs).taxonomies && RegisterAll(docs).taxonomies[tax] == TaxonomyOf(d)
  {
    hide RegisterDoc, TaxonomyOf, DeclaresTaxonomy;
    if docs == [] {
    } else {
      var init, last := docs[..|docs| - 1], docs[|docs| - 1];
      assert docs == init + [last];
      TaxonomyLoaded(init, tax);
      RegisteredTaxonomy(RegisterAll(init), last, tax);
      assert last in docs;
    }
  }

  // ---------------------------------------------------------------- grouping and sorting keep the documents

  ghost predicate Filed(docs: seq<Named>, v: Value) {
    exists n :: (n, v) in docs
  }

  lemma {:induction false} BucketMembers(docs: seq<Named>, name: string)
    ensures forall v :: v in Bucket(docs, name) <==> (name, v) in docs
  {
    if docs == [] {
    } else {
      BucketMembers(docs[1..], name);
      assert docs == [docs[0]] + docs[1..];
    }
  }

  lemma {:induction false} BucketsMembers(docs: seq<Named>, names: seq<string>)
    ensures forall v :: v in Buckets(docs, names) <==> exists n :: n in names && (n, v) in docs
  {
    if names == [] {
    } else {
      BucketMembers(docs, names[0]);
      BucketsMembers(docs, names[1..]);
      assert names == [names[0]] + names[1..];
    }
  }

  lemma {:induction false} FirstNamesMembers(docs: seq<Named>)
    ensures forall n :: n in FirstNames(docs) <==> exists v :: (n, v) in docs
  {
    if docs == [] {
    } else {
      var init, last := docs[..|docs| - 1], docs[|docs| - 1];
      FirstNamesMembers(init);
      assert docs == init + [last];
      assert (last.0, last.1) in docs;
    }
  }

  /** Grouping by name loses no document and adds none. */
  lemma GroupedMembers(docs: seq<Named>)
    ensures forall v :: v in Buckets(docs, FirstNames(docs)) <==> Filed(docs, v)
  {
    BucketsMembers(docs, FirstNames(docs));
    FirstNamesMembers(docs);
    forall v | Filed(docs, v) ensures v in Buckets(docs, FirstNames(docs)) {
      var n :| (n, v) in docs;
      assert n in FirstNames(docs);
    }
  }

  lemma SameMembers<T>(a: seq<T>, b: seq<T>)
    requires multiset(a) == multiset(b)
    ensures forall x :: x in a <==> x in b
  {
    forall x ensures x in a <==> x in b {
      assert x in a <==> x in multiset(a);
      assert x in b <==> x in multiset(b);
    }
  }

  // ---------------------------------------------------------------- sorted terms mean the same

  function AddTerm(m: map<string, seq<string>>, term: Value): map<string, seq<string>> {
    match GetStr(term, "name")
    case None => m
    case Some(name) => m[name := TermParents(term)]
  }

  lemma TermMapSnoc(ts: seq<Value>, t: Value)
    ensures TermMap(ts + [t]) == AddTerm(TermMap(ts), t)
  {
    assert (ts + [t])[..|ts|] == ts;
  }

  lemma AddsCommute(m: map<string, seq<string>>, x: Value, y: Value)
    requires GetStr(x, "name").GetOr("") != GetStr(y, "name").GetOr("")
    ensures AddTerm(AddTerm(m, x), y) == AddTerm(AddTerm(m, y), x)
  {
  }

  lemma LessDiffers(x: Value, y: Value)
    requires NameLess(x, y)
    ensures GetStr(x, "name").GetOr("") != GetStr(y, "name").GetOr("")
  {
    StringLessIsOrder();
    hide StringLess;
  }

  lemma {:induction false} InsertAdds(ts: seq<Value>, x: Value)
    ensures TermMap(Insert(NameLess, ts, x)) == AddTerm(TermMap(ts), x)
  {
    hide AddTerm, TermMap, NameLess;
    if ts != [] && NameLess(x, ts[|ts| - 1]) {
      var init, last := ts[..|ts| - 1], ts[|ts| - 1];
      assert ts == init + [last];
      InsertAdds(init, x);
      TermMapSnoc(Insert(NameLess, init, x), last);
      TermMapSnoc(init, last);
      LessDiffers(x, last);
      AddsCommute(TermMap(init), x, last);
    } else {
      TermMapSnoc(ts, x);
    }
  }

  /** Sorting terms by name, stably, leaves the term map alone even when names repeat. */
  lemma {:induction false} SortedTermMap(ts: seq<Value>)
    ensures TermMap(Sorted(NameLess, ts)) == TermMap(ts)
  {
    hide AddTerm, NameLess;
    if ts == [] {
    } else {
      var init, last := ts[..|ts| - 1], ts[|ts| - 1];
      assert ts == init + [last];
      SortedTermMap(init);
      InsertAdds(Sorted(NameLess, init), last);
      TermMapSnoc(init, last);
    }
  }

  // ---------------------------------------------------------------- the documents of a state

  /** Where both readings succeed, they gather the same. */
  lemma {:induction false} ProjectGathers(parse: Parser, s: Objects, keys: seq<Key>, p: Projected)
    requires forall k :: k in keys ==> k in s
    requires ProjectNodes(parse, s, keys, p).Ok? && Gather(parse, s, keys, p.g).Ok?
    ensures ProjectNodes(parse, s, keys, p).value.g == Gather(parse, s, keys, p.g).value
  {
    if keys == [] {
    } else {
      var next := ProjectNode(parse, s, keys[0], p).value;
      ProjectOne(parse, s, keys[0], p);
      hide ProjectNode, Visit;
      ProjectGathers(parse, s, keys[1..], next);
    }
  }

  lemma ProjectOne(parse: Parser, s: Objects, k: Key, p: Projected)
    requires k in s && ProjectNode(parse, s, k, p).Ok? && Visit(parse, s, k, p.g).Ok?
    ensures ProjectNode(parse, s, k, p).value.g == Visit(parse, s, k, p.g).value
  {
    hide Record, IsMetaNode, ClaimsMeta;
    if IsMetaNode(s, k) {
      PolicyIsNotRecorded(parse, p.g, AttributesOf(s[k].content));
    }
  }

  lemma {:induction false} ImportsReadBack(names: seq<string>)
    ensures ImportNames(ImportDocs(names)) == names
  {
    if names == [] {
    } else {
      ImportsReadBack(names[1..]);
      assert ImportDocs(names)[1..] == ImportDocs(names[1..]);
      assert GetStr(ImportDocs(names)[0], "ontology") == Some(names[0]);
      assert names == [names[0]] + names[1..];
    }
  }

  lemma OntologyMapReads(pkg: string, imports: Option<Value>, types: Option<Value>, edges: Option<Value>, structs: Option<Value>, rules: Option<Value>)
    ensures var d := Map(OntologyMap(pkg, imports, types, edges, structs, rules));
            && Declares(d, pkg) && Get(d, "imports") == imports && Get(d, "entity_types") == types && Get(d, "edge_types") == edges
            && Get(d, "structs") == structs && Get(d, "validation_rules") == rules
  {
    var m: map<string, Value> := map["ontology" := Str(pkg), "version" := Num(1)];
    assert forall k :: k in m <==> k == "ontology" || k == "version";
    assert GetStr(Map(m), "ontology") == Some(pkg);
  }

  /** The sections of an ontology document. */
  lemma OntologyDocReads(g: Gathered, pkg: string)
    ensures var d := OntologyDoc(g, pkg);
            && Declares(d, pkg)
            && Get(d, "entity_types") == OptMap(g.types, pkg) && Get(d, "edge_types") == OptMap(g.edges, pkg)
            && Get(d, "structs") == OptMap(g.structs, pkg)
            && Get(d, "validation_rules") == (if pkg in g.rules then Some(Seq(g.rules[pkg])) else None)
            && DocImports(d) == (if pkg in g.imports then StringsInOrder(g.imports[pkg]) else [])
  {
    hide OntologyMap, OptMap, ImportNames, ImportDocs, StringLess;
    var names := if pkg in g.imports then StringsInOrder(g.imports[pkg]) else [];
    assert names == [] <==> pkg !in g.imports || g.imports[pkg] == {};
    ImportsReadBack(names);
    assert ImportNames([]) == [] by {
      ImportsReadBack([]);
      assert |ImportDocs([])| == 0 by {
        NoImports();
      }
    }
    hide StringsInOrder;
    OntologyMapReads(pkg, if pkg in g.imports && g.imports[pkg] != {} then Some(Seq(ImportDocs(StringsInOrder(g.imports[pkg])))) else None,
      OptMap(g.types, pkg), OptMap(g.edges, pkg), OptMap(g.structs, pkg), if pkg in g.rules then Some(Seq(g.rules[pkg])) else None);
  }

  lemma NoImports()
    ensures ImportDocs([]) == []
  {
  }

  lemma OntologyDocPackage(g: Gathered, pkg: string)
    ensures PackageOf(OntologyDoc(g, pkg)) == AssemblePackage(g, pkg)
  {
    OntologyDocReads(g, pkg);
    hide OntologyDoc, StringsInOrder, ImportNames;
  }

  lemma TaxonomyDocReads(g: Gathered, tax: string)
    requires tax in g.terms
    ensures DeclaresTaxonomy(TaxonomyDoc(g, tax), tax)
    ensures TaxonomyOf(TaxonomyDoc(g, tax)) == Taxonomy(TermMap(g.terms[tax]))
  {
    hide Sorted, TermMap;
    SortedTermMap(g.terms[tax]);
    assert Get(TaxonomyDoc(g, tax), "ontology").None? && GetStr(TaxonomyDoc(g, tax), "taxonomy") == Some(tax);
  }

  /** A policy document the loader would take for an ontology or a taxonomy. */
  predicate Registers(doc: Value) {
    GetStr(doc, "ontology").Some? || (Get(doc, "ontology").None? && GetStr(doc, "taxonomy").Some?)
  }

  /** The documents before the final sort. */
  function Unsorted(g: Gathered, policy: seq<Named>): seq<Named> {
    OntologyDocs(g) + TaxonomyDocs(g) + policy
  }

  /** Every document is an ontology of the state, a taxonomy of the state, or one the loader skips. */
  ghost predicate Origin(g: Gathered, v: Value) {
    || (exists p :: p in PackageNames(g) && v == OntologyDoc(g, p))
    || (exists t :: t in g.terms && v == TaxonomyDoc(g, t))
    || !Registers(v)
  }

  lemma OntologyOrigins(g: Gathered)
    ensures forall d :: d in OntologyDocs(g) ==> Origin(g, d.1)
    ensures forall p :: p in PackageNames(g) ==> (p, OntologyDoc(g, p)) in OntologyDocs(g)
  {
    hide OntologyDoc, TaxonomyDoc, PackageNames, Registers, StringLess;
    var packages := StringsInOrder(PackageNames(g));
    forall d | d in OntologyDocs(g) ensures Origin(g, d.1) {
      var i :| 0 <= i < |packages| && d == (packages[i], OntologyDoc(g, packages[i]));
      assert packages[i] in packages;
    }
    forall p | p in PackageNames(g) ensures (p, OntologyDoc(g, p)) in OntologyDocs(g) {
      var i :| 0 <= i < |packages| && packages[i] == p;
      assert OntologyDocs(g)[i] == (p, OntologyDoc(g, p));
    }
  }

  lemma TaxonomyOrigins(g: Gathered)
    ensures forall d :: d in TaxonomyDocs(g) ==> Origin(g, d.1)
    ensures forall t :: t in g.terms ==> (t + "-taxonomy", TaxonomyDoc(g, t)) in TaxonomyDocs(g)
  {
    hide OntologyDoc, TaxonomyDoc, PackageNames, Registers, StringLess;
    var taxonomies := StringsInOrder(g.terms.Keys);
    forall d | d in TaxonomyDocs(g) ensures Origin(g, d.1) {
      var i :| 0 <= i < |taxonomies| && d == (taxonomies[i] + "-taxonomy", TaxonomyDoc(g, taxonomies[i]));
      assert taxonomies[i] in taxonomies;
    }
    forall t | t in g.terms ensures (t + "-taxonomy", TaxonomyDoc(g, t)) in TaxonomyDocs(g) {
      var i :| 0 <= i < |taxonomies| && taxonomies[i] == t;
      assert TaxonomyDocs(g)[i] == (t + "-taxonomy", TaxonomyDoc(g, t));
    }
  }

  lemma Origins(g: Gathered, policy: seq<Named>)
    requires forall d :: d in policy ==> !Registers(d.1)
    ensures forall v :: Filed(Unsorted(g, policy), v) ==> Origin(g, v)
    ensures forall p :: p in PackageNames(g) ==> Filed(Unsorted(g, policy), OntologyDoc(g, p))
    ensures forall t :: t in g.terms ==> Filed(Unsorted(g, policy), TaxonomyDoc(g, t))
  {
    hide OntologyDoc, TaxonomyDoc, PackageNames, Registers, OntologyDocs, TaxonomyDocs;
    OntologyOrigins(g);
    TaxonomyOrigins(g);
    var all := Unsorted(g, policy);
    forall v | Filed(all, v) ensures Origin(g, v) {
      var n :| (n, v) in all;
      assert (n, v) in policy ==> !Registers((n, v).1);
      hide Origin;
    }
    hide Origin;
    forall p | p in PackageNames(g) ensures Filed(all, OntologyDoc(g, p)) {
      assert (p, OntologyDoc(g, p)) in all;
    }
    forall t | t in g.terms ensures Filed(all, TaxonomyDoc(g, t)) {
      assert (t + "-taxonomy", TaxonomyDoc(g, t)) in all;
    }
  }

  lemma OriginDeclares(g: Gathered, v: Value, pkg: string)
    requires Origin(g, v)
    ensures Declares(v, pkg) ==> pkg in PackageNames(g) && v == OntologyDoc(g, pkg)
  {
    hide OntologyDoc, TaxonomyDoc, PackageNames;
    if Declares(v, pkg) {
      if p :| p in PackageNames(g) && v == OntologyDoc(g, p) {
        OntologyDocReads(g, p);
      } else if t :| t in g.terms && v == TaxonomyDoc(g, t) {
        TaxonomyDocReads(g, t);
        assert false;
      }
    }
  }

  lemma OriginDeclaresTaxonomy(g: Gathered, v: Value, tax: string)
    requires Origin(g, v)
    ensures DeclaresTaxonomy(v, tax) ==> tax in g.terms && v == TaxonomyDoc(g, tax)
  {
    hide OntologyDoc, TaxonomyDoc, PackageNames;
    if DeclaresTaxonomy(v, tax) {
      if t :| t in g.terms && v == TaxonomyDoc(g, t) {
        TaxonomyDocReads(g, t);
      } else if p :| p in PackageNames(g) && v == OntologyDoc(g, p) {
        OntologyDocReads(g, p);
        assert false;
      }
    }
  }

  /** A list of documents that holds exactly what a state projects, in any order and under any names. */
  ghost predicate Complete(g: Gathered, docs: seq<Value>) {
    && (forall v :: v in docs ==> Origin(g, v))
    && (forall p :: p in PackageNames(g) ==> OntologyDoc(g, p) in docs)
    && (forall t :: t in g.terms ==> TaxonomyDoc(g, t) in docs)
  }

  lemma CompletePackage(g: Gathered, docs: seq<Value>, pkg: string)
    requires Complete(g, docs)
    ensures pkg in RegisterAll(docs).packages <==> pkg in PackageNames(g)
    ensures pkg in PackageNames(g) ==> RegisterAll(docs).packages[pkg] == AssemblePackage(g, pkg)
  {
    hide Origin, OntologyDoc, TaxonomyDoc, PackageNames, Declares, RegisterAll, AssemblePackage;
    forall d | d in docs && Declares(d, pkg) ensures pkg in PackageNames(g) && d == OntologyDoc(g, pkg) {
      OriginDeclares(g, d, pkg);
    }
    PackageLoaded(docs, pkg);
    OntologyDocReads(g, pkg);
    OntologyDocPackage(g, pkg);
  }

  lemma CompleteTaxonomy(g: Gathered, docs: seq<Value>, tax: string)
    requires Complete(g, docs)
    ensures tax in RegisterAll(docs).taxonomies <==> tax in g.terms
    ensures tax in g.terms ==> RegisterAll(docs).taxonomies[tax] == Taxonomy(TermMap(g.terms[tax]))
  {
    hide Origin, OntologyDoc, TaxonomyDoc, PackageNames, DeclaresTaxonomy, RegisterAll, TaxonomyOf, TermMap;
    forall d | d in docs && DeclaresTaxonomy(d, tax) ensures tax in g.terms && d == TaxonomyDoc(g, tax) {
      OriginDeclaresTaxonomy(g, d, tax);
    }
    TaxonomyLoaded(docs, tax);
    if tax in g.terms {
      TaxonomyDocReads(g, tax);
    }
  }

  lemma CompleteLoads(g: Gathered, docs: seq<Value>)
    requires Complete(g, docs)
    ensures RegisterAll(docs).packages == map p | p in PackageNames(g) :: AssemblePackage(g, p)
    ensures RegisterAll(docs).taxonomies == map t | t in g.terms :: Taxonomy(TermMap(g.terms[t]))
  {
    hide Complete, PackageNames, AssemblePackage, RegisterAll, TermMap;
    forall p ensures (p in RegisterAll(docs).packages <==> p in PackageNames(g))
                     && (p in PackageNames(g) ==> RegisterAll(docs).packages[p] == AssemblePackage(g, p)) {
      CompletePackage(g, docs, p);
    }
    forall t ensures (t in RegisterAll(docs).taxonomies <==> t in g.terms)
                     && (t in g.terms ==> RegisterAll(docs).taxonomies[t] == Taxonomy(TermMap(g.terms[t]))) {
      CompleteTaxonomy(g, docs, t);
    }
  }

  lemma SortedMembers(docs: seq<Named>)
    ensures var sorted := Sorted(DocLess, docs);
            forall v :: v in Buckets(sorted, FirstNames(sorted)) <==> Filed(docs, v)
  {
    var sorted := Sorted(DocLess, docs);
    SortedPermutes(DocLess, docs);
    SameMembers(sorted, docs);
    GroupedMembers(sorted);
    hide Sorted, Buckets, FirstNames;
    forall v ensures Filed(sorted, v) <==> Filed(docs, v) {
    }
  }

  lemma ProjectedIsComplete(g: Gathered, policy: seq<Named>)
    requires forall d :: d in policy ==> !Registers(d.1)
    ensures var docs := Sorted(DocLess, Unsorted(g, policy)); Complete(g, Buckets(docs, FirstNames(docs)))
  {
    hide Origin, OntologyDoc, TaxonomyDoc, PackageNames, Sorted, Unsorted, Buckets, FirstNames, Filed, DocLess;
    SortedMembers(Unsorted(g, policy));
    Origins(g, policy);
  }

  /** The policy document a state projects. */
  function ProjectedPolicy(parse: Parser, s: Objects): Option<Value> {
    match ProjectNodes(parse, s, InOrder(s.Keys), Projected(NOTHING, []))
    case Err(_) => None
    case Ok(p) => if |p.policies| == 1 then parse(p.policies[0].2) else None
  }

  lemma ProjectionParts(parse: Parser, s: Objects) returns (g: Gathered, policy: seq<Named>)
    requires FromState(parse, s).Ok? && ProjectSchema(parse, s).Ok?
    requires ProjectedPolicy(parse, s).Some? ==> !Registers(ProjectedPolicy(parse, s).value)
    ensures FromState(parse, s) == Ok(Assemble(g))
    ensures ProjectSchema(parse, s) == Ok(Sorted(DocLess, Unsorted(g, policy)))
    ensures forall d :: d in policy ==> !Registers(d.1)
  {
    hide ProjectNodes, Gather, Assemble, Sorted, OntologyDocs, TaxonomyDocs, Registers, InOrder;
    var p := ProjectNodes(parse, s, InOrder(s.Keys), Projected(NOTHING, [])).value;
    ProjectGathers(parse, s, InOrder(s.Keys), Projected(NOTHING, []));
    g, policy := p.g, PolicyDocs(parse, p.policies).value;
  }

  /**
   * Loading the projected documents of a state gives the registry derived from it, short of the
   * seeded meta package, whenever the loader does not take the policy for a schema document.
   */
  lemma ProjectionLoadsBack(parse: Parser, s: Objects)
    requires FromState(parse, s).Ok? && ProjectSchema(parse, s).Ok?
    requires ProjectedPolicy(parse, s).Some? ==> !Registers(ProjectedPolicy(parse, s).value)
    ensures var loaded := LoadDocs(ProjectSchema(parse, s).value);
            FromState(parse, s).value == Registry(META_REGISTRY.packages + loaded.packages, loaded.taxonomies)
  {
    hide FromState, ProjectSchema, PackageNames, AssemblePackage, TermMap, RegisterAll, Sorted, Unsorted, Buckets, FirstNames, Complete, DocLess, ProjectedPolicy;
    var g, policy := ProjectionParts(parse, s);
    ProjectedIsComplete(g, policy);
    var docs := Sorted(DocLess, Unsorted(g, policy));
    CompleteLoads(g, Buckets(docs, FirstNames(docs)));
  }
}
