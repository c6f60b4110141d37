/**
 * The meta-ontology, and the schema read back out of a folded state (crates/allod-core/src/meta.rs).
 * Parsing a definition string as YAML is a parameter.
 */
module Meta {
  import opened Text
  import opened Values
  import opened Order
  import opened Objects
  import opened Registries

  type Parser = string -> Option<Value>

  const META_TYPES: set<string> :=
    {"meta/EntityType", "meta/EdgeType", "meta/Struct", "meta/TaxonomyTerm", "meta/ValidationRule", "meta/Policy"}

  /** True for a meta type reference; a version suffix is ignored. */
  predicate IsMetaType(typeRef: string) {
    Bare(typeRef) in META_TYPES
  }

  // ---------------------------------------------------------------- the seeded package

  function Attr(texpr: string, required: bool): Value {
    var m := map["type" := Str(texpr)];
    Map(if required then m["required" := Bool(true)] else m)
  }

  const ELEMENT := Map(map["attributes" := Map(map[
    "name" := Attr("string", true), "package" := Attr("string", true), "version" := Attr("int", false),
    "definition" := Attr("string", true), "imports" := Attr("list<string>", false)])])

  const TERM := Map(map["attributes" := Map(map[
    "name" := Attr("string", true), "taxonomy" := Attr("string", true), "version" := Attr("int", false),
    "parents" := Attr("list<string>", false), "status" := Attr("enum<active|deprecated>", false),
    "definition" := Attr("string", false)])])

  const POLICY := Map(map["attributes" := Map(map["name" := Attr("string", true), "definition" := Attr("string", true)])])

  const META_PACKAGE := Package(
    Map(map["EntityType" := ELEMENT, "EdgeType" := ELEMENT, "Struct" := ELEMENT, "TaxonomyTerm" := TERM,
            "ValidationRule" := ELEMENT, "Policy" := POLICY]),
    Null, Null, Null, [])

  /** A registry seeded with the meta package only. */
  const META_REGISTRY := Registry(map["meta" := META_PACKAGE], map[])

  lemma ElementReads()
    ensures Declared(ELEMENT).Keys == {"name", "package", "version", "definition", "imports"}
    ensures forall a :: a in {"name", "package", "definition"} ==> GetStr(Declared(ELEMENT)[a], "type") == Some("string")
    ensures forall a :: a in Declared(ELEMENT) && GetStr(Declared(ELEMENT)[a], "type") != Some("string") ==> a !in {"name", "package", "definition"}
    ensures forall a :: a in Declared(ELEMENT) && Get(Declared(ELEMENT)[a], "required").Some? ==> a in {"name", "package", "definition"}
    ensures GetStr(ELEMENT, "extends") == None
  {
    assert "type" != "required" && "extends" != "attributes";
  }

  lemma PolicyReads()
    ensures Declared(POLICY).Keys == {"name", "definition"}
    ensures forall a :: a in {"name", "definition"} ==> GetStr(Declared(POLICY)[a], "type") == Some("string")
    ensures GetStr(POLICY, "extends") == None
  {
    assert "type" != "required" && "extends" != "attributes";
  }

  lemma TermReads()
    ensures Declared(TERM).Keys == {"name", "taxonomy", "version", "parents", "status", "definition"}
    ensures forall a :: a in {"name", "taxonomy", "definition"} ==> GetStr(Declared(TERM)[a], "type") == Some("string")
    ensures GetStr(Declared(TERM)["parents"], "type") == Some("list<string>")
    ensures GetStr(Declared(TERM)["status"], "type") == Some("enum<active|deprecated>")
    ensures forall a :: a in Declared(TERM) && Get(Declared(TERM)[a], "required").Some? ==> a in {"name", "taxonomy"}
    ensures GetStr(TERM, "extends") == None
  {
    assert "type" != "required" && "extends" != "attributes";
  }

  lemma ImportListReads()
    ensures GetStr(Declared(ELEMENT)["imports"], "type") == Some("list<string>")
  {
    assert "type" != "required";
  }

  /** A type of the meta package resolves wherever that package is installed. */
  lemma MetaResolves(reg: Registry, t: string, name: string, def: Value)
    requires "meta" in reg.packages && reg.packages["meta"] == META_PACKAGE && Get(META_PACKAGE.types, name) == Some(def)
    requires Bare(t) == "meta/" + name && '/' !in name && GetStr(def, "extends") == None
    ensures ResolveType(reg, t, None) == Some(Resolved("meta", name, def))
    ensures CollectedAttrs(reg, "meta", name) == Declared(def)
  {
    hide Bare, RSplitOnce, Declared, Get, GetStr;
    assert "meta" + "/" + name == "meta/" + name;
    QualifiedSplits("meta", name);
    assert TypeIn(reg, "meta", name) == Some(Resolved("meta", name, def));
    assert Extended(reg, Resolved("meta", name, def)) == None;
  }

  // ---------------------------------------------------------------- accumulation

  /** What has been read so far, by package or taxonomy name. */
  datatype Gathered = Gathered(
    types: map<string, map<string, Value>>,
    edges: map<string, map<string, Value>>,
    structs: map<string, map<string, Value>>,
    rules: map<string, seq<Value>>,
    imports: map<string, set<string>>,
    terms: map<string, seq<Value>>)

  const NOTHING := Gathered(map[], map[], map[], map[], map[], map[])

  function Put(m: map<string, map<string, Value>>, pkg: string, name: string, def: Value): map<string, map<string, Value>> {
    m[pkg := (if pkg in m then m[pkg] else map[])[name := def]]
  }

  function Push(m: map<string, seq<Value>>, key: string, x: Value): map<string, seq<Value>> {
    m[key := (if key in m then m[key] else []) + [x]]
  }

  function AddImports(m: map<string, set<string>>, pkg: string, attrs: Value): map<string, set<string>> {
    match GetSeq(attrs, "imports")
    case None => m
    case Some(items) => m[pkg := (if pkg in m then m[pkg] else {}) + (set x | x in Strings(items))]
  }

  /** A taxonomy term as it is registered: name, parents, and the status when there is one. */
  function TermValue(name: string, parents: seq<Value>, status: Option<string>): Value {
    var m := map["name" := Str(name), "parents" := Seq(parents)];
    Map(match status case None => m case Some(s) => m["status" := Str(s)])
  }

  function Definition(parse: Parser, attrs: Value): Result<Value> {
    var text :- OrErr(GetStr(attrs, "definition"), "missing definition");
    OrErr(parse(text), "bad definition")
  }

  /** Record one meta node; policy nodes are handled elsewhere. */
  function Record(parse: Parser, g: Gathered, typ: string, attrs: Value): Result<Gathered> {
    if typ == "meta/EntityType" || typ == "meta/EdgeType" || typ == "meta/Struct" then
      var name :- OrErr(GetStr(attrs, "name"), "missing name");
      var pkg :- OrErr(GetStr(attrs, "package"), "missing package");
      var def :- Definition(parse, attrs);
      var g' := g.(imports := AddImports(g.imports, pkg, attrs));
      if typ == "meta/EntityType" then Ok(g'.(types := Put(g.types, pkg, name, def)))
      else if typ == "meta/EdgeType" then Ok(g'.(edges := Put(g.edges, pkg, name, def)))
      else Ok(g'.(structs := Put(g.structs, pkg, name, def)))
    else if typ == "meta/ValidationRule" then
      var pkg :- OrErr(GetStr(attrs, "package"), "missing package");
      var def :- Definition(parse, attrs);
      Ok(g.(imports := AddImports(g.imports, pkg, attrs), rules := Push(g.rules, pkg, def)))
    else if typ == "meta/TaxonomyTerm" then
      var name :- OrErr(GetStr(attrs, "name"), "missing name");
      var tax :- OrErr(GetStr(attrs, "taxonomy"), "missing taxonomy");
      Ok(g.(terms := Push(g.terms, tax, TermValue(name, GetSeq(attrs, "parents").GetOr([]), GetStr(attrs, "status")))))
    else Ok(g)
  }

  /** The type reference of a live node. */
  function LiveType(s: Objects, k: Key): Option<string>
    requires k in s
  {
    if k.0 == "node" && !s[k].deleted then GetStr(s[k].content, "type") else None
  }

  predicate IsMetaNode(s: Objects, k: Key) {
    k in s && LiveType(s, k).Some? && IsMetaType(LiveType(s, k).value)
  }

  /** A live node of another type that names the reserved package or taxonomy. */
  predicate ClaimsMeta(s: Objects, k: Key) {
    && k in s && LiveType(s, k).Some? && !IsMetaType(LiveType(s, k).value)
    && var attrs := AttributesOf(s[k].content);
       GetStr(attrs, "package") == Some("meta") || GetStr(attrs, "taxonomy") == Some("meta")
  }

  function Visit(parse: Parser, s: Objects, k: Key, g: Gathered): Result<Gathered>
    requires k in s
  {
    if ClaimsMeta(s, k) then Err("meta package is spec-defined and cannot be stored")
    else if !IsMetaNode(s, k) then Ok(g)
    else Record(parse, g, Bare(LiveType(s, k).value), AttributesOf(s[k].content))
  }

  function Gather(parse: Parser, s: Objects, keys: seq<Key>, g: Gathered): Result<Gathered>
    requires forall k :: k in keys ==> k in s
  {
    if keys == [] then Ok(g)
    else
      var g' :- Visit(parse, s, keys[0], g);
      Gather(parse, s, keys[1..], g')
  }

  function MapOrNull(m: map<string, map<string, Value>>, pkg: string): Value {
    if pkg in m then Map(m[pkg]) else Null
  }

  function AssemblePackage(g: Gathered, pkg: string): Package {
    Package(MapOrNull(g.types, pkg), MapOrNull(g.edges, pkg), MapOrNull(g.structs, pkg),
            if pkg in g.rules then Seq(g.rules[pkg]) else Null,
            if pkg in g.imports then StringsInOrder(g.imports[pkg]) else [])
  }

  function PackageNames(g: Gathered): set<string> {
    g.types.Keys + g.edges.Keys + g.structs.Keys + g.rules.Keys
  }

  function Assemble(g: Gathered): Registry {
    Registry(META_REGISTRY.packages + (map p | p in PackageNames(g) :: AssemblePackage(g, p)),
             META_REGISTRY.taxonomies + (map t | t in g.terms :: Taxonomy(TermMap(g.terms[t]))))
  }

  /** Derive the full registry from folded state. */
  function FromState(parse: Parser, s: Objects): Result<Registry> {
    var g :- Gather(parse, s, InOrder(s.Keys), NOTHING);
    Ok(Assemble(g))
  }

  method FromStateLoop(parse: Parser, s: Objects) returns (r: Result<Registry>)
    ensures r == FromState(parse, s)
  {
    var keys := InOrder(s.Keys);
    var g := NOTHING;
    assert keys[0..] == keys;
    for i := 0 to |keys|
      invariant Gather(parse, s, keys, NOTHING) == Gather(parse, s, keys[i..], g)
    {
      var step := Visit(parse, s, keys[i], g);
      assert keys[i..][1..] == keys[i + 1..];
      if step.Err? {
        return Err(step.error);
      }
      g := step.value;
    }
    r := Ok(Assemble(g));
  }

  // ---------------------------------------------------------------- the schema depends on meta nodes only

  /** A live meta node that is recorded; policies are not. */
  predicate IsSchemaNode(s: Objects, k: Key) {
    IsMetaNode(s, k) && Bare(LiveType(s, k).value) != "meta/Policy"
  }

  /** The recorded nodes with their contents: all a derived registry can depend on. */
  function SchemaView(s: Objects): map<Key, Value> {
    map k | k in s && IsSchemaNode(s, k) :: s[k].content
  }

  lemma PolicyIsNotRecorded(parse: Parser, g: Gathered, attrs: Value)
    ensures Record(parse, g, "meta/Policy", attrs) == Ok(g)
  {
    assert |"meta/Policy"| == 11 && "meta/Policy"[5] == 'P';
    assert "meta/Struct"[5] == 'S';
  }

  lemma OthersAreSkipped(parse: Parser, s: Objects, k: Key, g: Gathered)
    requires k in s && !ClaimsMeta(s, k) && !IsSchemaNode(s, k)
    ensures Visit(parse, s, k, g) == Ok(g)
  {
    hide Record, Bare, IsMetaType, ClaimsMeta;
    PolicyIsNotRecorded(parse, g, AttributesOf(s[k].content));
  }

  function Selected(keys: seq<Key>, which: set<Key>): seq<Key> {
    if keys == [] then []
    else (if keys[0] in which then [keys[0]] else []) + Selected(keys[1..], which)
  }

  lemma {:induction false} SelectedMembers(keys: seq<Key>, which: set<Key>)
    ensures forall k :: k in Selected(keys, which) <==> k in keys && k in which
  {
    if keys == [] {
    } else {
      SelectedMembers(keys[1..], which);
      assert keys == [keys[0]] + keys[1..];
    }
  }

  lemma {:induction false} SelectedAscends(keys: seq<Key>, which: set<Key>)
    requires Ascending(Before, keys)
    ensures Ascending(Before, Selected(keys, which))
  {
    if keys == [] {
    } else {
      SelectedAscends(keys[1..], which);
      SelectedMembers(keys[1..], which);
      var rest := Selected(keys[1..], which);
      forall i | 0 <= i < |rest| ensures Before(keys[0], rest[i]) {
        assert rest[i] in keys[1..];
      }
    }
  }

  lemma SelectedIsOrder(keys: set<Key>, which: set<Key>)
    requires which <= keys
    ensures Selected(InOrder(keys), which) == InOrder(which)
  {
    BeforeIsOrder();
    hide Before;
    SelectedMembers(InOrder(keys), which);
    SelectedAscends(InOrder(keys), which);
    AscendingUnique(Before, Selected(InOrder(keys), which), InOrder(which));
  }

  ghost predicate NoClaims(s: Objects) {
    forall k :: k in s ==> !ClaimsMeta(s, k)
  }

  lemma {:induction false} GatherSkips(parse: Parser, s: Objects, keys: seq<Key>, g: Gathered)
    requires NoClaims(s)
    requires forall k :: k in keys ==> k in s
    ensures forall k :: k in Selected(keys, SchemaView(s).Keys) ==> k in s
    ensures Gather(parse, s, keys, g) == Gather(parse, s, Selected(keys, SchemaView(s).Keys), g)
  {
    hide Record, ClaimsMeta, IsMetaNode, IsSchemaNode, Visit;
    if keys == [] {
    } else {
      SelectedMembers(keys, SchemaView(s).Keys);
      SelectedMembers(keys[1..], SchemaView(s).Keys);
      var step := Visit(parse, s, keys[0], g);
      assert keys[0] in SchemaView(s).Keys <==> IsSchemaNode(s, keys[0]);
      GatherSkips(parse, s, keys[1..], if step.Ok? then step.value else g);
      if keys[0] in SchemaView(s).Keys {
        assert Selected(keys, SchemaView(s).Keys) == [keys[0]] + Selected(keys[1..], SchemaView(s).Keys);
      } else {
        OthersAreSkipped(parse, s, keys[0], g);
        assert Selected(keys, SchemaView(s).Keys) == Selected(keys[1..], SchemaView(s).Keys);
      }
    }
  }

  lemma {:induction false} GatherSame(parse: Parser, s: Objects, t: Objects, keys: seq<Key>, g: Gathered)
    requires SchemaView(s) == SchemaView(t)
    requires forall k :: k in keys ==> k in SchemaView(s)
    ensures forall k :: k in keys ==> k in s && k in t
    ensures Gather(parse, s, keys, g) == Gather(parse, t, keys, g)
  {
    if keys == [] {
    } else {
      hide Visit, IsSchemaNode;
      VisitSame(parse, s, t, keys[0], g);
      var step := Visit(parse, s, keys[0], g);
      GatherSame(parse, s, t, keys[1..], if step.Ok? then step.value else g);
      assert keys == [keys[0]] + keys[1..];
    }
  }

  lemma VisitSame(parse: Parser, s: Objects, t: Objects, k: Key, g: Gathered)
    requires k in SchemaView(s) && k in SchemaView(t) && SchemaView(s)[k] == SchemaView(t)[k]
    ensures Visit(parse, s, k, g) == Visit(parse, t, k, g)
  {
    hide Record, Bare, IsMetaType;
  }

  /** Two states with the same recorded nodes and no claims on the reserved package give the same registry. */
  lemma SameMetaSameRegistry(parse: Parser, s: Objects, t: Objects)
    requires SchemaView(s) == SchemaView(t)
    requires NoClaims(s) && NoClaims(t)
    ensures FromState(parse, s) == FromState(parse, t)
  {
    var view := SchemaView(s).Keys;
    GatherSkips(parse, s, InOrder(s.Keys), NOTHING);
    GatherSkips(parse, t, InOrder(t.Keys), NOTHING);
    SelectedIsOrder(s.Keys, view);
    SelectedIsOrder(t.Keys, view);
    GatherSame(parse, s, t, InOrder(view), NOTHING);
  }

  /** A claim on the reserved package makes the derivation fail, whatever else the state holds. */
  lemma {:induction false} ClaimFails(parse: Parser, s: Objects, keys: seq<Key>, g: Gathered, k: Key)
    requires forall j :: j in keys ==> j in s
    requires k in keys && ClaimsMeta(s, k)
    ensures Gather(parse, s, keys, g).Err?
  {
    hide Record, ClaimsMeta, IsMetaNode;
    var step := Visit(parse, s, keys[0], g);
    if step.Ok? {
      assert keys == [keys[0]] + keys[1..];
      ClaimFails(parse, s, keys[1..], step.value, k);
    }
  }
}
