/**
 * Schema documents compiled to operations on meta nodes, schema documents projected back out of a
 * state, and documents loaded into a registry (crates/allod-core/src/schemaops.rs,
 * crates/allod-core/src/loader.rs:41-105). Printing and parsing a definition are parameters.
 */
module SchemaOps {
  import opened Text
  import opened Values
  import opened Order
  import opened Objects
  import opened Registries
  import opened Meta

  /** A document with the name it is filed under. */
  type Named = (string, Value)

  type Printer = Value -> string

  /** The id minted by the n-th call. */
  type Mint = nat -> string

  // ---------------------------------------------------------------- elements of a document

  datatype Section = EntityType | EdgeType | Struct | ValidationRule

  function MetaTypeOf(section: Section): string {
    match section
    case EntityType => "meta/EntityType"
    case EdgeType => "meta/EdgeType"
    case Struct => "meta/Struct"
    case ValidationRule => "meta/ValidationRule"
  }

  /** What becomes one meta node. */
  datatype Element =
    | Definition(section: Section, pkg: string, name: string, def: Value, imports: seq<string>)
    | Term(tax: string, name: string, parents: seq<Value>, status: Option<string>)
    | Policy(name: string, def: Value)

  /** The definitions of one section, by name. */
  function SectionElements(section: Section, pkg: string, v: Option<Value>, imports: seq<string>): (r: seq<Element>) {
    match v
    case Some(Map(m)) =>
      var names := StringsInOrder(m.Keys);
      seq(|names|, i requires 0 <= i < |names| => assert names[i] in names; Definition(section, pkg, names[i], m[names[i]], imports))
    case _ => []
  }

  function RuleElements(pkg: string, rules: seq<Value>, imports: seq<string>): seq<Element> {
    seq(|rules|, i requires 0 <= i < |rules| =>
      Definition(ValidationRule, pkg, GetStr(rules[i], "name").GetOr("unnamed"), rules[i], imports))
  }

  function TermElements(tax: string, terms: seq<Value>): seq<Element> {
    if terms == [] then []
    else
      match GetStr(terms[0], "name")
      case None => TermElements(tax, terms[1..])
      case Some(name) =>
        [Term(tax, name, GetSeq(terms[0], "parents").GetOr([]), GetStr(terms[0], "status"))] + TermElements(tax, terms[1..])
  }

  function DocImports(doc: Value): seq<string> {
    ImportNames(GetSeq(doc, "imports").GetOr([]))
  }

  function DocElements(doc: Value): seq<Element> {
    match GetStr(doc, "ontology")
    case Some(pkg) =>
      var imports := DocImports(doc);
      SectionElements(EntityType, pkg, Get(doc, "entity_types"), imports)
      + SectionElements(EdgeType, pkg, Get(doc, "edge_types"), imports)
      + SectionElements(Struct, pkg, Get(doc, "structs"), imports)
      + RuleElements(pkg, GetSeq(doc, "validation_rules").GetOr([]), imports)
    case None =>
      match GetStr(doc, "taxonomy")
      case Some(tax) => TermElements(tax, GetSeq(doc, "terms").GetOr([]))
      case None => []
  }

  function DocsElements(docs: seq<Named>): seq<Element> {
    if docs == [] then [] else DocsElements(docs[..|docs| - 1]) + DocElements(docs[|docs| - 1].1)
  }

  function PolicyElements(policy: Option<Value>): seq<Element> {
    match policy
    case Some(p) => [Policy(GetStr(p, "policy").GetOr("policy"), p)]
    case None => []
  }

  function Elements(docs: seq<Named>, policy: Option<Value>): seq<Element> {
    DocsElements(docs) + PolicyElements(policy)
  }

  // ---------------------------------------------------------------- operations

  function StrValues(names: seq<string>): seq<Value> {
    seq(|names|, i requires 0 <= i < |names| => Str(names[i]))
  }

  function Attributes(show: Printer, e: Element): Value {
    match e
    case Definition(_, pkg, name, def, imports) =>
      var m := map["name" := Str(name), "package" := Str(pkg), "definition" := Str(show(def))];
      Map(if imports == [] then m else m["imports" := Seq(StrValues(imports))])
    case Term(tax, name, parents, status) =>
      var m := map["name" := Str(name), "taxonomy" := Str(tax), "parents" := Seq(parents)];
      Map(match status case None => m case Some(s) => m["status" := Str(s)])
    case Policy(name, def) => Map(map["name" := Str(name), "definition" := Str(show(def))])
  }

  function ElementType(e: Element): string {
    match e
    case Definition(section, _, _, _, _) => MetaTypeOf(section)
    case Term(_, _, _, _) => "meta/TaxonomyTerm"
    case Policy(_, _) => "meta/Policy"
  }

  function NodePayload(show: Printer, id: string, e: Element): Value {
    Map(map["kind" := Str("node"), "id" := Str(id), "type" := Str(ElementType(e) + "@1"), "attributes" := Attributes(show, e)])
  }

  function CreateNode(show: Printer, id: string, e: Element): Value {
    Map(map["create" := NodePayload(show, id, e)])
  }

  function CreateNodes(show: Printer, mint: Mint, es: seq<Element>): seq<Value> {
    seq(|es|, i requires 0 <= i < |es| => CreateNode(show, mint(i), es[i]))
  }

  method PushAll(show: Printer, mint: Mint, ops: seq<Value>, es: seq<Element>) returns (more: seq<Value>)
    ensures more == ops + seq(|es|, i requires 0 <= i < |es| => CreateNode(show, mint(|ops| + i), es[i]))
  {
    hide CreateNode;
    more := ops;
    for i := 0 to |es|
      invariant |more| == |ops| + i && ops <= more
      invariant forall j :: 0 <= j < i ==> more[|ops| + j] == CreateNode(show, mint(|ops| + j), es[j])
    {
      more := more + [CreateNode(show, mint(|more|), es[i])];
    }
  }

  lemma CreateNodesAppend(show: Printer, mint: Mint, a: seq<Element>, b: seq<Element>)
    ensures CreateNodes(show, mint, a + b)
         == CreateNodes(show, mint, a) + seq(|b|, i requires 0 <= i < |b| => CreateNode(show, mint(|a| + i), b[i]))
  {
  }

  /** The type of the object an operation creates. */
  function CreatedType(op: Value): Option<string> {
    match Get(op, "create") case Some(payload) => GetStr(payload, "type") case None => None
  }

  /** The operation that installs a policy. */
  function InstallsPolicy(show: Printer, id: string, policy: Value): Value {
    Map(map["create" := Map(map["kind" := Str("node"), "id" := Str(id), "type" := Str("meta/Policy@1"),
                                "attributes" := Map(map["name" := Str(GetStr(policy, "policy").GetOr("policy")), "definition" := Str(show(policy))])])])
  }

  lemma NodeType(show: Printer, id: string, e: Element)
    ensures CreatedType(CreateNode(show, id, e)) == Some(ElementType(e) + "@1")
    ensures !e.Policy? ==> ElementType(e) + "@1" != "meta/Policy@1"
  {
    hide Attributes;
    assert |"meta/Policy@1"| == 13 && |"meta/Struct@1"| == 13 && "meta/Policy@1"[5] == 'P' && "meta/Struct@1"[5] == 'S';
  }

  lemma PolicyNodeIs(show: Printer, id: string, policy: Value)
    ensures CreateNode(show, id, Policy(GetStr(policy, "policy").GetOr("policy"), policy)) == InstallsPolicy(show, id, policy)
  {
    hide GetStr;
    assert "meta/Policy" + "@1" == "meta/Policy@1";
  }

  lemma {:induction false} NoPolicyInDocs(docs: seq<Named>)
    ensures forall e :: e in DocsElements(docs) ==> !e.Policy?
  {
    hide DocElements;
    if docs == [] {
    } else {
      NoPolicyInDocs(docs[..|docs| - 1]);
      NoPolicyInDoc(docs[|docs| - 1].1);
    }
  }

  lemma NoPolicyInDoc(doc: Value)
    ensures forall e :: e in DocElements(doc) ==> !e.Policy?
  {
    hide DocImports, GetSeq;
    if GetStr(doc, "ontology").None? && GetStr(doc, "taxonomy").Some? {
      TermsAreTerms(GetStr(doc, "taxonomy").value, GetSeq(doc, "terms").GetOr([]));
    }
    hide TermElements;
  }

  lemma {:induction false} TermsAreTerms(tax: string, terms: seq<Value>)
    ensures forall e :: e in TermElements(tax, terms) ==> e.Term?
  {
    if terms == [] {
    } else {
      TermsAreTerms(tax, terms[1..]);
    }
  }

  /** With a policy, the last operation and no other installs one: that policy. Without, none does. */
  lemma PolicyIsLast(show: Printer, mint: Mint, docs: seq<Named>, policy: Option<Value>)
    ensures var ops := CreateNodes(show, mint, Elements(docs, policy));
            var n := |ops| - if policy.Some? then 1 else 0;
            && n >= 0 && (policy.Some? ==> ops[n] == InstallsPolicy(show, mint(n), policy.value))
            && forall i :: 0 <= i < n ==> CreatedType(ops[i]) != Some("meta/Policy@1")
  {
    var es := Elements(docs, policy);
    var ops := CreateNodes(show, mint, es);
    var n := |ops| - if policy.Some? then 1 else 0;
    NoPolicyInDocs(docs);
    hide DocsElements;
    if policy.Some? {
      assert es[n] == Policy(GetStr(policy.value, "policy").GetOr("policy"), policy.value);
      PolicyNodeIs(show, mint(n), policy.value);
    }
    hide InstallsPolicy, CreateNode, CreatedType, ElementType;
    forall i | 0 <= i < n ensures CreatedType(ops[i]) != Some("meta/Policy@1") {
      assert es[i] in DocsElements(docs);
      NodeType(show, mint(i), es[i]);
    }
  }

  /** One create operation per element, documents in order and the policy last. */
  method CompileSchemaOps(show: Printer, mint: Mint, docs: seq<Named>, policy: Option<Value>) returns (ops: seq<Value>)
    ensures ops == CreateNodes(show, mint, Elements(docs, policy))
    ensures policy.Some? ==> ops != [] && ops[|ops| - 1] == InstallsPolicy(show, mint(|ops| - 1), policy.value)
    ensures forall i :: 0 <= i < (if policy.Some? then |ops| - 1 else |ops|) ==> CreatedType(ops[i]) != Some("meta/Policy@1")
  {
    PolicyIsLast(show, mint, docs, policy);
    hide DocElements, CreateNode, InstallsPolicy, CreatedType;
    ops := [];
    for i := 0 to |docs|
      invariant ops == CreateNodes(show, mint, DocsElements(docs[..i]))
    {
      assert docs[..i + 1][..i] == docs[..i];
      CreateNodesAppend(show, mint, DocsElements(docs[..i]), DocElements(docs[i].1));
      ops := PushAll(show, mint, ops, DocElements(docs[i].1));
    }
    assert docs[..|docs|] == docs;
    CreateNodesAppend(show, mint, DocsElements(docs), PolicyElements(policy));
    ops := PushAll(show, mint, ops, PolicyElements(policy));
  }

  // ---------------------------------------------------------------- loading documents

  function RegisterDoc(reg: Registry, doc: Value): Registry {
    if Get(doc, "ontology").Some? then RegisterOntology(reg, doc).GetOr(reg)
    else if Get(doc, "taxonomy").Some? then RegisterTaxonomy(reg, doc).GetOr(reg)
    else reg
  }

  function RegisterAll(docs: seq<Value>): Registry {
    if docs == [] then EMPTY else RegisterDoc(RegisterAll(docs[..|docs| - 1]), docs[|docs| - 1])
  }

  function FirstNames(docs: seq<Named>): seq<string> {
    if docs == [] then []
    else
      var before, name := FirstNames(docs[..|docs| - 1]), docs[|docs| - 1].0;
      if name in before then before else before + [name]
  }

  function Bucket(docs: seq<Named>, name: string): seq<Value> {
    if docs == [] then []
    else (if docs[0].0 == name then [docs[0].1] else []) + Bucket(docs[1..], name)
  }

  function Buckets(docs: seq<Named>, names: seq<string>): seq<Value> {
    if names == [] then [] else Bucket(docs, names[0]) + Buckets(docs, names[1..])
  }

  /** Documents grouped by name, names in order of first appearance, then registered. */
  function LoadDocs(docs: seq<Named>): Registry {
    RegisterAll(Buckets(docs, FirstNames(docs)))
  }

  // ---------------------------------------------------------------- projecting documents

  /** A policy node: id, name and definition. */
  type PolicyNode = (string, string, string)

  datatype Projected = Projected(g: Gathered, policies: seq<PolicyNode>)

  /** Nodes of other types are passed over, whatever they claim. */
  function ProjectNode(parse: Parser, s: Objects, k: Key, p: Projected): Result<Projected>
    requires k in s
  {
    if !IsMetaNode(s, k) then Ok(p)
    else
      var t, attrs := Bare(LiveType(s, k).value), AttributesOf(s[k].content);
      if t == "meta/Policy" then
        var name :- OrErr(GetStr(attrs, "name"), "missing name");
        var definition :- OrErr(GetStr(attrs, "definition"), "missing definition");
        Ok(p.(policies := p.policies + [(k.1, name, definition)]))
      else
        var g :- Record(parse, p.g, t, attrs);
        Ok(p.(g := g))
  }

  function ProjectNodes(parse: Parser, s: Objects, keys: seq<Key>, p: Projected): Result<Projected>
    requires forall k :: k in keys ==> k in s
  {
    if keys == [] then Ok(p)
    else
      var p' :- ProjectNode(parse, s, keys[0], p);
      ProjectNodes(parse, s, keys[1..], p')
  }

  function ImportDocs(names: seq<string>): seq<Value> {
    seq(|names|, i requires 0 <= i < |names| => Map(map["ontology" := Str(names[i])]))
  }

  function With(m: map<string, Value>, key: string, v: Option<Value>): map<string, Value> {
    match v case None => m case Some(x) => m[key := x]
  }

  function OptMap(m: map<string, map<string, Value>>, pkg: string): Option<Value> {
    if pkg in m then Some(Map(m[pkg])) else None
  }

  /** An ontology document; absent sections are left out. */
  function OntologyMap(pkg: string, imports: Option<Value>, types: Option<Value>, edges: Option<Value>, structs: Option<Value>, rules: Option<Value>): map<string, Value> {
    With(With(With(With(With(map["ontology" := Str(pkg), "version" := Num(1)],
      "imports", imports), "entity_types", types), "edge_types", edges), "structs", structs), "validation_rules", rules)
  }

  function OntologyDoc(g: Gathered, pkg: string): Value {
    Map(OntologyMap(pkg,
      if pkg in g.imports && g.imports[pkg] != {} then Some(Seq(ImportDocs(StringsInOrder(g.imports[pkg])))) else None,
      OptMap(g.types, pkg), OptMap(g.edges, pkg), OptMap(g.structs, pkg),
      if pkg in g.rules then Some(Seq(g.rules[pkg])) else None))
  }

  predicate NameLess(a: Value, b: Value) {
    StringLess(GetStr(a, "name").GetOr(""), GetStr(b, "name").GetOr(""))
  }

  function TaxonomyDoc(g: Gathered, tax: string): Value
    requires tax in g.terms
  {
    Map(map["taxonomy" := Str(tax), "version" := Num(1), "terms" := Seq(Sorted(NameLess, g.terms[tax]))])
  }

  function OntologyDocs(g: Gathered): seq<Named> {
    var names := StringsInOrder(PackageNames(g));
    seq(|names|, i requires 0 <= i < |names| => (names[i], OntologyDoc(g, names[i])))
  }

  function TaxonomyDocs(g: Gathered): seq<Named> {
    var names := StringsInOrder(g.terms.Keys);
    seq(|names|, i requires 0 <= i < |names| => assert names[i] in names; (names[i] + "-taxonomy", TaxonomyDoc(g, names[i])))
  }

  /** Ontologies before taxonomies before the policy, then by name. */
  function Rank(name: string): nat {
    if name == "policy" then 2
    else if |name| >= 9 && name[|name| - 9..] == "-taxonomy" then 1
    else 0
  }

  predicate DocLess(a: Named, b: Named) {
    Rank(a.0) < Rank(b.0) || (Rank(a.0) == Rank(b.0) && StringLess(a.0, b.0))
  }

  function PolicyDocs(parse: Parser, policies: seq<PolicyNode>): Result<seq<Named>> {
    if |policies| > 1 then Err("a graph carries one policy")
    else if policies == [] then Ok([])
    else
      var v :- OrErr(parse(policies[0].2), "policy definition does not parse");
      Ok([("policy", v)])
  }

  function ProjectSchema(parse: Parser, s: Objects): Result<seq<Named>> {
    var p :- ProjectNodes(parse, s, InOrder(s.Keys), Projected(NOTHING, []));
    var policy :- PolicyDocs(parse, p.policies);
    Ok(Sorted(DocLess, OntologyDocs(p.g) + TaxonomyDocs(p.g) + policy))
  }

  method ProjectNodesLoop(parse: Parser, s: Objects) returns (r: Result<Projected>)
    ensures r == ProjectNodes(parse, s, InOrder(s.Keys), Projected(NOTHING, []))
  {
    hide ProjectNode;
    var keys, p := InOrder(s.Keys), Projected(NOTHING, []);
    assert keys[0..] == keys;
    for i := 0 to |keys|
      invariant ProjectNodes(parse, s, keys, Projected(NOTHING, [])) == ProjectNodes(parse, s, keys[i..], p)
    {
      var step := ProjectNode(parse, s, keys[i], p);
      assert keys[i..][1..] == keys[i + 1..];
      if step.Err? {
        return Err(step.error);
      }
      p := step.value;
    }
    r := Ok(p);
  }

  method OntologyDocsLoop(g: Gathered) returns (docs: seq<Named>)
    ensures docs == OntologyDocs(g)
  {
    hide OntologyDoc, PackageNames, StringLess;
    docs := [];
    var packages := StringsInOrder(PackageNames(g));
    hide StringsInOrder;
    for i := 0 to |packages|
      invariant |docs| == i && forall j :: 0 <= j < i ==> docs[j] == OntologyDocs(g)[j]
    {
      docs := docs + [(packages[i], OntologyDoc(g, packages[i]))];
    }
  }

  method TaxonomyDocsLoop(g: Gathered) returns (docs: seq<Named>)
    ensures docs == TaxonomyDocs(g)
  {
    hide TaxonomyDoc, StringLess;
    docs := [];
    var taxonomies := StringsInOrder(g.terms.Keys);
    hide StringsInOrder;
    for i := 0 to |taxonomies|
      invariant |docs| == i && forall j :: 0 <= j < i ==> docs[j] == TaxonomyDocs(g)[j]
    {
      assert taxonomies[i] in taxonomies;
      docs := docs + [(taxonomies[i] + "-taxonomy", TaxonomyDoc(g, taxonomies[i]))];
    }
  }

  method ProjectSchemaLoop(parse: Parser, s: Objects) returns (r: Result<seq<Named>>)
    ensures r == ProjectSchema(parse, s)
  {
    hide ProjectNodes, OntologyDocs, TaxonomyDocs, PolicyDocs, Sorted;
    var p := ProjectNodesLoop(parse, s);
    if p.Err? {
      return Err(p.error);
    }
    var ontologies := OntologyDocsLoop(p.value.g);
    var taxonomies := TaxonomyDocsLoop(p.value.g);
    var policy := PolicyDocs(parse, p.value.policies);
    if policy.Err? {
      return Err(policy.error);
    }
    r := Ok(Sorted(DocLess, ontologies + taxonomies + policy.value));
  }
}
