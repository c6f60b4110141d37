/**
 * The shipped code ontology (ontologies/code/ontology.yaml:13-50) and the importer
 * (crates/allod-graph/src/repo.rs:402-595): every registry that holds that ontology accepts the
 * nodes and edges an import writes.
 */
module RepoSchema {
  import opened Text
  import opened Values
  import opened Objects
  import opened Registries
  import Meta
  import opened Fold
  import opened RepoImport
  import opened RepoAccept

  // ---------------------------------------------------------------- the ontology

  function Attributes(m: map<string, Value>): Value {
    Map(map["attributes" := Map(m)])
  }

  const REPOSITORY_ATTRIBUTES := map["name" := Meta.Attr("string", true), "origin" := Meta.Attr("string", false), "default_branch" := Meta.Attr("string", false)]

  const SOURCE_FILE_ATTRIBUTES := map["path" := Meta.Attr("string", true), "language" := Meta.Attr("string", false), "blob" := Meta.Attr("external-ref", true)]

  const MODULE_ATTRIBUTES := map["name" := Meta.Attr("string", true), "path" := Meta.Attr("string", false)]

  const FUNCTION_ATTRIBUTES := map["name" := Meta.Attr("string", true), "signature" := Meta.Attr("string", false), "span" := Meta.Attr("string", false)]

  const KINDS := "enum<struct|class|enum|interface|alias>"

  const TYPE_ATTRIBUTES := map["name" := Meta.Attr("string", true), "kind" := Meta.Attr(KINDS, false)]

  const ENTITY_TYPES := Map(map[
    "Repository" := Attributes(REPOSITORY_ATTRIBUTES), "SourceFile" := Attributes(SOURCE_FILE_ATTRIBUTES), "Module" := Attributes(MODULE_ATTRIBUTES),
    "Function" := Attributes(FUNCTION_ATTRIBUTES), "Type" := Attributes(TYPE_ATTRIBUTES)])

  function Edge(domain: Value, range: Value, cardinality: string): Value {
    Map(map["domain" := domain, "range" := range, "cardinality" := Str(cardinality)])
  }

  const ITEMS := Seq([Str("Function"), Str("Type")])

  const FILES := Seq([Str("SourceFile"), Str("Module")])

  const EDGE_TYPES := Map(map[
    "in_repo" := Edge(Str("SourceFile"), Str("Repository"), "many-to-one"),
    "in_module" := Edge(Str("SourceFile"), Str("Module"), "many-to-one"),
    "declares" := Edge(Str("SourceFile"), ITEMS, "one-to-many"),
    "imports" := Edge(FILES, FILES, "many-to-many"),
    "calls" := Edge(Str("Function"), Str("Function"), "many-to-many"),
    "references" := Edge(ITEMS, ITEMS, "many-to-many"),
    "implements" := Edge(Str("Type"), Str("Type"), "many-to-many")])

  /** The ontology is installed, and no package declares a struct that shadows its plain types. */
  ghost predicate ShipsCode(reg: Registry) {
    && "code" in reg.packages && reg.packages["code"].types == ENTITY_TYPES && reg.packages["code"].edges == EDGE_TYPES
    && forall p :: p in reg.packages ==> Get(reg.packages[p].structs, "string").None? && Get(reg.packages[p].structs, "external-ref").None?
  }

  /** The kinds of item the scanner knows. */
  predicate Scanned(c: Commit) {
    forall key | key in c.items :: key.1 in {"fn", "struct", "enum", "trait"}
  }

  // ---------------------------------------------------------------- resolution

  lemma TypeResolvesTo(reg: Registry, t: string, name: string, def: Value, pkg: Option<string>)
    requires ShipsCode(reg) && Bare(t) == "code/" + name && '/' !in name
    requires Get(ENTITY_TYPES, name) == Some(def)
    ensures ResolveType(reg, t, pkg) == Some(Resolved("code", name, def))
  {
    hide Bare, RSplitOnce;
    assert "code" + "/" + name == "code/" + name;
    QualifiedSplits("code", name);
  }

  lemma NameResolvesTo(reg: Registry, name: string, def: Value)
    requires ShipsCode(reg) && '@' !in name && '/' !in name
    requires Get(ENTITY_TYPES, name) == Some(def)
    ensures ResolveType(reg, name, Some("code")) == Some(Resolved("code", name, def))
  {
    BareIs(name);
    hide Bare;
    assert LastIndexOf(name, '/') == None;
  }

  lemma Satisfies(reg: Registry, t: string, name: string, def: Value)
    requires ShipsCode(reg) && Bare(t) == "code/" + name && '@' !in name && '/' !in name
    requires Get(ENTITY_TYPES, name) == Some(def)
    ensures TypeSatisfies(reg, t, name, Some("code"))
  {
    hide ResolveType, ShipsCode;
    NameResolvesTo(reg, name, def);
    TypeResolvesTo(reg, t, name, def, Some("code"));
    assert Names(AncestorAt(reg, ResolveType(reg, t, Some("code")), 0), Resolved("code", name, def));
  }

  lemma AttributesRead(m: map<string, Value>)
    ensures GetStr(Attributes(m), "extends") == None && Declared(Attributes(m)) == m
  {
    assert "extends" != "attributes";
  }

  lemma AttributesOfType(reg: Registry, name: string, m: map<string, Value>)
    requires ShipsCode(reg) && Get(ENTITY_TYPES, name) == Some(Attributes(m))
    ensures CollectedAttrs(reg, "code", name) == m
  {
    AttributesRead(m);
    hide Attributes, GetStr, Declared, ResolveType;
    assert TypeIn(reg, "code", name) == Some(Resolved("code", name, Attributes(m)));
    hide TypeIn, ShipsCode, Get;
    assert Extended(reg, Resolved("code", name, Attributes(m))) == None;
  }

  // ---------------------------------------------------------------- values

  lemma PlainIsValid(reg: Registry, t: string, v: Value)
    requires ShipsCode(reg) && t in {"string", "external-ref"}
    ensures ValidValue(reg, t, v)
  {
    assert "string"[0] != "list<"[0] && "string"[0] != "enum<"[0];
    assert "external-ref"[0] != "list<"[0] && "external-ref"[1] != "enum<"[1];
    assert ResolveStruct(reg, t) == None;
    UndeclaredIsFree(reg, t, v);
  }

  lemma SplitFive(a: string, b: string, c: string, d: string, e: string)
    requires '|' !in a && '|' !in b && '|' !in c && '|' !in d && '|' !in e
    ensures Split(a + "|" + (b + "|" + (c + "|" + (d + "|" + e))), '|') == [a, b, c, d, e]
  {
    hide Split;
    SplitHead(a, b + "|" + (c + "|" + (d + "|" + e)));
    SplitHead(b, c + "|" + (d + "|" + e));
    SplitHead(c, d + "|" + e);
    SplitHead(d, e);
    SplitLast(e);
  }

  lemma KindNames()
    ensures '|' !in "struct" && '|' !in "class" && '|' !in "enum" && '|' !in "interface" && '|' !in "alias"
    ensures "struct|class|enum|interface|alias" == "struct" + "|" + ("class" + "|" + ("enum" + "|" + ("interface" + "|" + "alias")))
  {
    hide *;
  }

  lemma Trimmed(k: string)
    requires k in {"struct", "enum", "interface"}
    ensures Trim(k) == k
  {
    hide Trim;
    TrimKeeps(k);
  }

  lemma Kinds(k: string)
    requires k in {"struct", "enum", "interface"}
    ensures k in TrimAll(Split("struct|class|enum|interface|alias", '|'))
  {
    hide *;
    KindNames();
    SplitFive("struct", "class", "enum", "interface", "alias");
    Trimmed(k);
    TrimmedIn(["struct", "class", "enum", "interface", "alias"], k);
  }

  lemma KindsJoin()
    ensures "enum<struct|class|enum|interface|alias>" == "enum<" + "struct|class|enum|interface|alias" + ">"
  {
    hide *;
  }

  lemma KindIsValid(reg: Registry, k: string)
    requires k in {"struct", "enum", "interface"}
    ensures ValidValue(reg, "enum<struct|class|enum|interface|alias>", Str(k))
  {
    hide Trim, Split, TrimAll, Between, ResolveStruct;
    KindsJoin();
    EnumReads("enum<struct|class|enum|interface|alias>", "struct|class|enum|interface|alias");
    Kinds(k);
  }

  // ---------------------------------------------------------------- nodes

  lemma PayloadReads(id: string, t: string, given: map<string, Value>, provenance: Value)
    ensures GetStr(Map(NodePayload(id, t, Map(given), provenance)), "type") == Some(t)
    ensures AttributesOf(Map(NodePayload(id, t, Map(given), provenance))) == Map(given)
  {
  }

  lemma NodeAccepted(reg: Registry, id: string, t: string, name: string, m: map<string, Value>, given: map<string, Value>, provenance: Value)
    requires ShipsCode(reg) && Bare(t) == "code/" + name && '/' !in name && Get(ENTITY_TYPES, name) == Some(Attributes(m))
    requires Fills(reg, m, given)
    ensures ValidateNode(reg, Map(NodePayload(id, t, Map(given), provenance))).Ok?
  {
    hide ResolveType, CollectedAttrs, ShipsCode, Bare, Fills, ValidateNode, NodePayload, AttributesOf, GetStr, Attributes;
    TypeResolvesTo(reg, t, name, Attributes(m), None);
    AttributesOfType(reg, name, m);
    PayloadReads(id, t, given, provenance);
    FilledIsValid(reg, Map(NodePayload(id, t, Map(given), provenance)), t, Resolved("code", name, Attributes(m)), given);
  }

  lemma AttrReads(texpr: string, required: bool)
    ensures GetStr(Meta.Attr(texpr, required), "type") == Some(texpr)
    ensures IsRequired(Meta.Attr(texpr, required)) <==> required
  {
    assert "type" != "required";
  }

  /** What the importer's types are called. */
  lemma CodeNames()
    ensures Bare("code/Repository@1") == "code/" + "Repository" && Bare("code/SourceFile@1") == "code/" + "SourceFile"
    ensures Bare("code/Function@1") == "code/" + "Function" && Bare("code/Type@1") == "code/" + "Type"
    ensures '/' !in "Repository" && '/' !in "SourceFile" && '/' !in "Function" && '/' !in "Type"
    ensures '@' !in "Repository" && '@' !in "SourceFile" && '@' !in "Function" && '@' !in "Type"
  {
    hide *;
    assert "code/Repository" + "@1" == "code/Repository@1" && "code/" + "Repository" == "code/Repository";
    assert "code/SourceFile" + "@1" == "code/SourceFile@1" && "code/" + "SourceFile" == "code/SourceFile";
    assert "code/Function" + "@1" == "code/Function@1" && "code/" + "Function" == "code/Function";
    assert "code/Type" + "@1" == "code/Type@1" && "code/" + "Type" == "code/Type";
    BareVersioned("code/Repository");
    BareVersioned("code/SourceFile");
    BareVersioned("code/Function");
    BareVersioned("code/Type");
  }

  lemma EntityTypes()
    ensures Get(ENTITY_TYPES, "Repository") == Some(Attributes(REPOSITORY_ATTRIBUTES))
    ensures Get(ENTITY_TYPES, "SourceFile") == Some(Attributes(SOURCE_FILE_ATTRIBUTES))
    ensures Get(ENTITY_TYPES, "Function") == Some(Attributes(FUNCTION_ATTRIBUTES))
    ensures Get(ENTITY_TYPES, "Type") == Some(Attributes(TYPE_ATTRIBUTES))
  {
    hide Attributes, Meta.Attr;
    assert "Module" !in {"Repository", "SourceFile", "Function", "Type"};
  }

  /** An attribute of a plain type takes any value. */
  lemma Plain(reg: Registry, v: Value)
    requires ShipsCode(reg)
    ensures ValidValue(reg, "string", v) && ValidValue(reg, "external-ref", v)
  {
    hide *;
    PlainIsValid(reg, "string", v);
    PlainIsValid(reg, "external-ref", v);
  }

  lemma RepoFills(reg: Registry, given: map<string, Value>)
    requires ShipsCode(reg) && given.Keys == {"name", "origin"}
    ensures Fills(reg, REPOSITORY_ATTRIBUTES, given)
  {
    hide ValidValue, IsRequired, ShipsCode, Meta.Attr, GetStr;
    AttrReads("string", true);
    AttrReads("string", false);
    forall a | a in given ensures ValidValue(reg, "string", given[a]) {
      Plain(reg, given[a]);
    }
    assert "default_branch" !in {"name", "origin"} && "origin" != "name";
  }

  lemma FileFills(reg: Registry, given: map<string, Value>)
    requires ShipsCode(reg) && {"path", "blob"} <= given.Keys <= {"path", "blob", "language"}
    ensures Fills(reg, SOURCE_FILE_ATTRIBUTES, given)
  {
    hide ValidValue, IsRequired, ShipsCode, Meta.Attr, GetStr;
    AttrReads("string", true);
    AttrReads("string", false);
    AttrReads("external-ref", true);
    forall a | a in given ensures ValidValue(reg, "string", given[a]) && ValidValue(reg, "external-ref", given[a]) {
      Plain(reg, given[a]);
    }
    assert "language" !in {"path", "blob"} && "path" != "blob";
  }

  lemma FunctionFills(reg: Registry, given: map<string, Value>)
    requires ShipsCode(reg) && given.Keys == {"name", "signature", "span"}
    ensures Fills(reg, FUNCTION_ATTRIBUTES, given)
  {
    hide ValidValue, IsRequired, ShipsCode, Meta.Attr, GetStr;
    AttrReads("string", true);
    AttrReads("string", false);
    forall a | a in given ensures ValidValue(reg, "string", given[a]) {
      Plain(reg, given[a]);
    }
  }

  lemma TypeFills(reg: Registry, name: Value, kind: string)
    requires ShipsCode(reg) && kind in {"struct", "enum", "interface"}
    ensures Fills(reg, TYPE_ATTRIBUTES, map["name" := name, "kind" := Str(kind)])
  {
    hide ValidValue, IsRequired, ShipsCode, Meta.Attr, GetStr;
    AttrReads("string", true);
    AttrReads(KINDS, false);
    Plain(reg, name);
    KindIsValid(reg, kind);
    assert "kind" != "name";
  }

  lemma FileKeys(c: Commit, p: string)
    requires p in c.blobs
    ensures FileAttributes(c, p).Map? && {"path", "blob"} <= FileAttributes(c, p).m.Keys <= {"path", "blob", "language"}
  {
    hide BlobRef;
  }

  lemma ItemKeys(key: ItemKey, x: Extracted)
    ensures ItemAttributes(key, x).Map?
    ensures key.1 == "fn" ==> ItemAttributes(key, x).m.Keys == {"name", "signature", "span"}
    ensures key.1 != "fn" ==> ItemAttributes(key, x).m == map["name" := Str(key.2), "kind" := Str(if key.1 == "trait" then "interface" else key.1)]
  {
  }

  lemma RepoAccepted(reg: Registry, c: Commit, id: string)
    requires ShipsCode(reg)
    ensures ValidateNode(reg, Map(RepoContent(c, id))).Ok?
  {
    hide Bare, ShipsCode, ValidateNode, Fills, Get, Attributes, NodePayload;
    CodeNames();
    EntityTypes();
    var given := map["name" := Str(c.origin), "origin" := Str(c.locator)];
    RepoFills(reg, given);
    NodeAccepted(reg, id, "code/Repository@1", "Repository", REPOSITORY_ATTRIBUTES, given, c.provenance);
  }

  lemma FileAccepted(reg: Registry, c: Commit, id: string, p: string)
    requires ShipsCode(reg) && p in c.blobs
    ensures ValidateNode(reg, Map(FileContent(c, id, p))).Ok?
  {
    hide Bare, ShipsCode, ValidateNode, Fills, Get, Attributes, NodePayload, FileAttributes;
    CodeNames();
    EntityTypes();
    FileKeys(c, p);
    FileFills(reg, FileAttributes(c, p).m);
    NodeAccepted(reg, id, "code/SourceFile@1", "SourceFile", SOURCE_FILE_ATTRIBUTES, FileAttributes(c, p).m, c.provenance);
  }

  lemma FunctionAccepted(reg: Registry, id: string, key: ItemKey, x: Extracted, provenance: Value)
    requires ShipsCode(reg) && key.1 == "fn"
    ensures ValidateNode(reg, Map(NodePayload(id, "code/Function@1", ItemAttributes(key, x), provenance))).Ok?
  {
    hide Bare, ShipsCode, ValidateNode, Fills, Get, Attributes, NodePayload, ItemAttributes;
    CodeNames();
    EntityTypes();
    ItemKeys(key, x);
    FunctionFills(reg, ItemAttributes(key, x).m);
    NodeAccepted(reg, id, "code/Function@1", "Function", FUNCTION_ATTRIBUTES, ItemAttributes(key, x).m, provenance);
  }

  lemma TypeAccepted(reg: Registry, id: string, key: ItemKey, x: Extracted, provenance: Value)
    requires ShipsCode(reg) && key.1 in {"struct", "enum", "trait"}
    ensures ValidateNode(reg, Map(NodePayload(id, "code/Type@1", ItemAttributes(key, x), provenance))).Ok?
  {
    hide Bare, ShipsCode, ValidateNode, Fills, Get, Attributes, NodePayload, ItemAttributes;
    CodeNames();
    EntityTypes();
    assert key.1[0] != "fn"[0];
    ItemKeys(key, x);
    TypeFills(reg, Str(key.2), if key.1 == "trait" then "interface" else key.1);
    NodeAccepted(reg, id, "code/Type@1", "Type", TYPE_ATTRIBUTES, ItemAttributes(key, x).m, provenance);
  }

  lemma NodesAccepted(reg: Registry, c: Commit)
    requires ShipsCode(reg) && Scanned(c)
    ensures AcceptsNodes(reg, c)
  {
    hide ShipsCode, ValidateNode, RepoContent, FileContent, NodePayload, ItemAttributes;
    forall id ensures ValidateNode(reg, Map(RepoContent(c, id))).Ok? {
      RepoAccepted(reg, c, id);
    }
    forall id, p | p in c.blobs ensures ValidateNode(reg, Map(FileContent(c, id, p))).Ok? {
      FileAccepted(reg, c, id, p);
    }
    forall id, key | key in c.items ensures ValidateNode(reg, Map(ItemContent(c, id, key))).Ok? {
      if key.1 == "fn" {
        FunctionAccepted(reg, id, key, c.items[key], c.provenance);
      } else {
        TypeAccepted(reg, id, key, c.items[key], c.provenance);
      }
    }
  }

  // ---------------------------------------------------------------- edges

  lemma RefFinds(m: Objects, id: string)
    requires ("node", id) in m && !m[("node", id)].deleted
    ensures ResolveRef(m, NodeRef(id)) == Some(("node", m[("node", id)]))
  {
    assert NodeRef(id) == "node" + [':'] + id;
    SplitOnceJoins(NodeRef(id), "node", id, ':');
    hide SplitOnce;
  }

  /** A live node of the named type may stand at an end that allows that type. */
  lemma SideAccepted(reg: Registry, m: Objects, payload: Value, edef: Value, side: string, allowedKey: string, tref: string, id: string, name: string, def: Value)
    requires ShipsCode(reg) && '@' !in name && '/' !in name && Get(ENTITY_TYPES, name) == Some(def)
    requires GetStr(payload, side) == Some(NodeRef(id)) && ("node", id) in m && !m[("node", id)].deleted
    requires TypeOf(m[("node", id)].content) == "code/" + name
    requires Get(edef, allowedKey).Some? && name in OneOrMany(Get(edef, allowedKey).value)
    requires RSplitOnce(Bare(tref), '/').Some? && RSplitOnce(Bare(tref), '/').value.0 == "code"
    ensures ValidateSide(reg, m, payload, edef, side, allowedKey, tref).Ok?
  {
    hide ResolveRef, TypeSatisfies, NodeRef, ShipsCode, Bare, RSplitOnce, OneOrMany;
    RefFinds(m, id);
    var actual := GetStr(m[("node", id)].content, "type").GetOr("");
    assert TypeOf(m[("node", id)].content) == Bare(actual);
    hide TypeOf;
    Satisfies(reg, actual, name, def);
    assert PackageIn(tref) == Some("code");
    assert SideAllowed(reg, actual, Get(edef, allowedKey).value, Some("code"));
    hide SideAllowed, PackageIn;
  }

  lemma EdgeResolvesTo(reg: Registry, name: string, edef: Value)
    requires ShipsCode(reg) && '@' !in name && '/' !in name && Get(EDGE_TYPES, name) == Some(edef)
    ensures ResolveEdgeType(reg, "code/" + name + "@1") == Some(edef)
    ensures RSplitOnce(Bare("code/" + name + "@1"), '/') == Some(("code", name))
  {
    BareVersioned("code/" + name);
    assert "code" + "/" + name == "code/" + name;
    QualifiedSplits("code", name);
    hide Bare, RSplitOnce;
  }

  lemma LiveNodeIs(m: Objects, id: string)
    requires Live(m, ("node", id)) != Other
    ensures ("node", id) in m && !m[("node", id)].deleted
    ensures var t := TypeOf(m[("node", id)].content);
            && (Live(m, ("node", id)).Repo? ==> t == "code/Repository")
            && (Live(m, ("node", id)).File? ==> t == "code/SourceFile")
            && (IsFunction(Live(m, ("node", id))) ==> t == "code/Function")
            && (Live(m, ("node", id)).Item? ==> t == "code/Function" || t == "code/Type")
  {
    hide TypeOf, Attr, TypeKind, EdgeCode;
  }

  lemma EdgeReads(id: string, t: string, from: string, to: string, provenance: Value)
    ensures var payload := Map(EdgePayload(id, t, from, to, provenance));
            GetStr(payload, "type") == Some(t) && GetStr(payload, "from") == Some(from) && GetStr(payload, "to") == Some(to)
  {
  }

  lemma EdgeAccepted(reg: Registry, m: Objects, id: string, name: string, f: string, g: string, fromName: string, toName: string, provenance: Value, edef: Value)
    requires ShipsCode(reg) && '@' !in name && '/' !in name && Get(EDGE_TYPES, name) == Some(edef)
    requires Get(edef, "domain").Some? && fromName in OneOrMany(Get(edef, "domain").value)
    requires Get(edef, "range").Some? && toName in OneOrMany(Get(edef, "range").value)
    requires fromName in {"SourceFile", "Repository", "Function", "Type"} && toName in {"SourceFile", "Repository", "Function", "Type"}
    requires ("node", f) in m && !m[("node", f)].deleted && TypeOf(m[("node", f)].content) == "code/" + fromName
    requires ("node", g) in m && !m[("node", g)].deleted && TypeOf(m[("node", g)].content) == "code/" + toName
    ensures ValidateEdge(reg, m, Map(EdgePayload(id, "code/" + name + "@1", NodeRef(f), NodeRef(g), provenance))).Ok?
  {
    hide ResolveEdgeType, RSplitOnce, Bare, ValidateSide, NodeRef, ShipsCode, TypeOf, EdgePayload, Get, GetStr, OneOrMany, Attributes;
    var tref := "code/" + name + "@1";
    var payload := Map(EdgePayload(id, tref, NodeRef(f), NodeRef(g), provenance));
    EdgeReads(id, tref, NodeRef(f), NodeRef(g), provenance);
    EdgeResolvesTo(reg, name, edef);
    CodeNames();
    EntityTypes();
    SideAccepted(reg, m, payload, edef, "from", "domain", tref, f, fromName, Get(ENTITY_TYPES, fromName).value);
    SideAccepted(reg, m, payload, edef, "to", "range", tref, g, toName, Get(ENTITY_TYPES, toName).value);
  }

  lemma Sides()
    ensures Get(EDGE_TYPES, "in_repo") == Some(Edge(Str("SourceFile"), Str("Repository"), "many-to-one"))
    ensures Get(EDGE_TYPES, "declares") == Some(Edge(Str("SourceFile"), ITEMS, "one-to-many"))
    ensures Get(EDGE_TYPES, "calls") == Some(Edge(Str("Function"), Str("Function"), "many-to-many"))
    ensures forall a, b, c :: Get(Edge(a, b, c), "domain") == Some(a) && Get(Edge(a, b, c), "range") == Some(b)
    ensures OneOrMany(Str("SourceFile")) == ["SourceFile"] && OneOrMany(Str("Repository")) == ["Repository"] && OneOrMany(Str("Function")) == ["Function"]
    ensures "Function" in OneOrMany(ITEMS) && "Type" in OneOrMany(ITEMS)
  {
    assert ITEMS.items[0] == Str("Function") && ITEMS.items[1] == Str("Type");
  }

  lemma EdgeNamesJoin()
    ensures "code/" + "in_repo" + "@1" == "code/in_repo@1" && "code/" + "declares" + "@1" == "code/declares@1" && "code/" + "calls" + "@1" == "code/calls@1"
    ensures "code/" + "Repository" == "code/Repository" && "code/" + "SourceFile" == "code/SourceFile"
    ensures "code/" + "Function" == "code/Function" && "code/" + "Type" == "code/Type"
    ensures '@' !in "in_repo" && '/' !in "in_repo" && '@' !in "declares" && '/' !in "declares" && '@' !in "calls" && '/' !in "calls"
  {
    hide *;
  }

  lemma InRepoAccepted(reg: Registry, m: Objects, id: string, f: string, g: string, provenance: Value)
    requires ShipsCode(reg) && Live(m, ("node", f)).File? && Live(m, ("node", g)).Repo?
    ensures ValidateEdge(reg, m, Map(EdgePayload(id, "code/in_repo@1", NodeRef(f), NodeRef(g), provenance))).Ok?
  {
    hide *;
    Sides();
    EdgeNamesJoin();
    LiveNodeIs(m, f);
    LiveNodeIs(m, g);
    EdgeAccepted(reg, m, id, "in_repo", f, g, "SourceFile", "Repository", provenance, Edge(Str("SourceFile"), Str("Repository"), "many-to-one"));
  }

  lemma DeclaresAccepted(reg: Registry, m: Objects, id: string, f: string, g: string, provenance: Value)
    requires ShipsCode(reg) && Live(m, ("node", f)).File? && Live(m, ("node", g)).Item?
    ensures ValidateEdge(reg, m, Map(EdgePayload(id, "code/declares@1", NodeRef(f), NodeRef(g), provenance))).Ok?
  {
    hide *;
    Sides();
    EdgeNamesJoin();
    LiveNodeIs(m, f);
    LiveNodeIs(m, g);
    var item := if TypeOf(m[("node", g)].content) == "code/Function" then "Function" else "Type";
    EdgeAccepted(reg, m, id, "declares", f, g, "SourceFile", item, provenance, Edge(Str("SourceFile"), ITEMS, "one-to-many"));
  }

  lemma CallsAccepted(reg: Registry, m: Objects, id: string, f: string, g: string, provenance: Value)
    requires ShipsCode(reg) && IsFunction(Live(m, ("node", f))) && IsFunction(Live(m, ("node", g)))
    ensures ValidateEdge(reg, m, Map(EdgePayload(id, "code/calls@1", NodeRef(f), NodeRef(g), provenance))).Ok?
  {
    hide *;
    FunctionIsLive(m, f);
    FunctionIsLive(m, g);
    Sides();
    EdgeNamesJoin();
    LiveNodeIs(m, f);
    LiveNodeIs(m, g);
    EdgeAccepted(reg, m, id, "calls", f, g, "Function", "Function", provenance, Edge(Str("Function"), Str("Function"), "many-to-many"));
  }

  lemma FunctionIsLive(m: Objects, f: string)
    requires IsFunction(Live(m, ("node", f)))
    ensures Live(m, ("node", f)) != Other
  {
    hide Live;
  }

  lemma EdgesAccepted(reg: Registry, c: Commit)
    requires ShipsCode(reg)
    ensures AcceptsInRepo(reg, c) && AcceptsDeclares(reg, c) && AcceptsCalls(reg, c)
  {
    hide ShipsCode, ValidateEdge, EdgePayload, NodeRef, Live, IsFunction;
    forall m: Objects, id: string, f: string, g: string | Live(m, ("node", f)).File? && Live(m, ("node", g)).Repo?
      ensures ValidateEdge(reg, m, Map(EdgePayload(id, "code/in_repo@1", NodeRef(f), NodeRef(g), c.provenance))).Ok?
    {
      InRepoAccepted(reg, m, id, f, g, c.provenance);
    }
    forall m: Objects, id: string, f: string, g: string | Live(m, ("node", f)).File? && Live(m, ("node", g)).Item?
      ensures ValidateEdge(reg, m, Map(EdgePayload(id, "code/declares@1", NodeRef(f), NodeRef(g), c.provenance))).Ok?
    {
      DeclaresAccepted(reg, m, id, f, g, c.provenance);
    }
    forall m: Objects, id: string, f: string, g: string | IsFunction(Live(m, ("node", f))) && IsFunction(Live(m, ("node", g)))
      ensures ValidateEdge(reg, m, Map(EdgePayload(id, "code/calls@1", NodeRef(f), NodeRef(g), c.provenance))).Ok?
    {
      CallsAccepted(reg, m, id, f, g, c.provenance);
    }
  }

  /** Every registry that holds the shipped ontology accepts whatever the scanner can find in a commit. */
  lemma ShippedAcceptsCode(reg: Registry, c: Commit)
    requires ShipsCode(reg) && Scanned(c)
    ensures AcceptsCode(reg, c)
  {
    hide *;
    NodesAccepted(reg, c);
    EdgesAccepted(reg, c);
    Together(reg, c);
  }

  lemma Together(reg: Registry, c: Commit)
    requires AcceptsNodes(reg, c) && AcceptsInRepo(reg, c) && AcceptsDeclares(reg, c) && AcceptsCalls(reg, c)
    ensures AcceptsCode(reg, c)
  {
    hide AcceptsNodes, AcceptsInRepo, AcceptsDeclares, AcceptsCalls;
  }
}
