/**
 * A genesis changeset that installs compiled documents (crates/allod-core/src/schemaops.rs:70-194,
 * crates/allod-core/src/store.rs:72-130, crates/allod-core/src/fold.rs:127-292): it is read under the
 * schema it installs, and the fold accepts it exactly when its terms have a known status.
 */
module SchemaGenesis {
  import opened Text
  import opened Values
  import opened Hashing
  import opened Model
  import opened Objects
  import opened Registries
  import opened Meta
  import opened Fold
  import opened Rules
  import opened Replay
  import opened Installing
  import SchemaOps
  import opened SchemaCompilation
  import opened SchemaReadBack

  type Element = SchemaOps.Element
  type Printer = SchemaOps.Printer
  type Mint = SchemaOps.Mint
  type Named = SchemaOps.Named

  /** The types of compiled nodes. */
  const META_REFS: set<string> :=
    {"meta/EntityType@1", "meta/EdgeType@1", "meta/Struct@1", "meta/ValidationRule@1", "meta/TaxonomyTerm@1", "meta/Policy@1"}

  /** The status a term states, when it states one, is one the meta package knows. */
  predicate GoodStatus(e: Element) {
    e.Term? && e.status.Some? ==> e.status.value in {"active", "deprecated"}
  }

  ghost predicate MetaInstalled(reg: Registry) {
    "meta" in reg.packages && reg.packages["meta"] == META_PACKAGE && ResolveStruct(reg, "string") == None
  }

  // ---------------------------------------------------------------- the types of compiled nodes

  function NameOf(e: Element): string {
    match e
    case Definition(section, _, _, _, _) =>
      (match section case EntityType => "EntityType" case EdgeType => "EdgeType" case Struct => "Struct" case ValidationRule => "ValidationRule")
    case Term(_, _, _, _) => "TaxonomyTerm"
    case Policy(_, _) => "Policy"
  }

  function DefOf(e: Element): Value {
    if e.Definition? then ELEMENT else if e.Term? then TERM else POLICY
  }

  lemma DefInstalled(e: Element)
    ensures Get(META_PACKAGE.types, NameOf(e)) == Some(DefOf(e))
  {
    assert "EntityType" != "EdgeType" && |"Struct"| == 6 && |"ValidationRule"| == 14 && |"TaxonomyTerm"| == 12 && |"EntityType"| == 10 && |"EdgeType"| == 8;
    assert "Policy"[0] != "Struct"[0];
  }

  lemma RefJoins(e: Element)
    ensures SchemaOps.ElementType(e) == "meta/" + NameOf(e) && '@' !in SchemaOps.ElementType(e) && '/' !in NameOf(e)
  {
    RefsJoin();
    hide *;
    match e {
      case Definition(section, _, _, _, _) =>
        match section {
          case EntityType => RefIs(e, "EntityType");
          case EdgeType => RefIs(e, "EdgeType");
          case Struct => RefIs(e, "Struct");
          case ValidationRule => RefIs(e, "ValidationRule");
        }
      case Term(_, _, _, _) => RefIs(e, "TaxonomyTerm");
      case Policy(_, _) => RefIs(e, "Policy");
    }
  }

  lemma RefIs(e: Element, name: string)
    requires name == match e
                     case Definition(section, _, _, _, _) =>
                       (match section case EntityType => "EntityType" case EdgeType => "EdgeType" case Struct => "Struct" case ValidationRule => "ValidationRule")
                     case Term(_, _, _, _) => "TaxonomyTerm"
                     case Policy(_, _) => "Policy"
    ensures NameOf(e) == name && SchemaOps.ElementType(e) == "meta/" + name
  {
  }

  lemma RefsJoin()
    ensures forall n :: n in {"EntityType", "EdgeType", "Struct", "ValidationRule", "TaxonomyTerm", "Policy"} ==> '@' !in "meta/" + n && '/' !in n
  {
    hide *;
  }

  lemma RefReads(e: Element)
    ensures Bare(SchemaOps.ElementType(e) + "@1") == "meta/" + NameOf(e) && '/' !in NameOf(e)
    ensures IsMetaType(SchemaOps.ElementType(e) + "@1")
    ensures SchemaOps.ElementType(e) + "@1" in META_REFS
  {
    hide Bare;
    RefJoins(e);
    BareVersioned(SchemaOps.ElementType(e));
    RefKnown(e);
  }

  lemma RefKnown(e: Element)
    ensures SchemaOps.ElementType(e) in META_TYPES && SchemaOps.ElementType(e) + "@1" in META_REFS
  {
    assert "meta/EntityType" + "@1" == "meta/EntityType@1" && "meta/EdgeType" + "@1" == "meta/EdgeType@1" && "meta/Struct" + "@1" == "meta/Struct@1";
    assert "meta/ValidationRule" + "@1" == "meta/ValidationRule@1" && "meta/TaxonomyTerm" + "@1" == "meta/TaxonomyTerm@1"
           && "meta/Policy" + "@1" == "meta/Policy@1";
  }

  lemma DefReads(e: Element)
    ensures GetStr(DefOf(e), "extends") == None
  {
    hide GetStr, Declared;
    ElementReads();
    TermReads();
    PolicyReads();
  }

  lemma TypeResolves(reg: Registry, e: Element)
    requires "meta" in reg.packages && reg.packages["meta"] == META_PACKAGE
    ensures ResolveType(reg, SchemaOps.ElementType(e) + "@1", None) == Some(Resolved("meta", NameOf(e), DefOf(e)))
    ensures CollectedAttrs(reg, "meta", NameOf(e)) == Declared(DefOf(e))
  {
    hide *;
    DefInstalled(e);
    RefReads(e);
    DefReads(e);
    MetaResolves(reg, SchemaOps.ElementType(e) + "@1", NameOf(e), DefOf(e));
  }

  // ---------------------------------------------------------------- their attributes

  lemma StatusNames()
    ensures '|' !in "active" && '|' !in "deprecated" && "active|deprecated" == "active" + "|" + "deprecated"
    ensures "enum<active|deprecated>" == "enum<" + "active|deprecated" + ">"
  {
    hide *;
  }

  lemma StatusesTrimmed()
    ensures Trim("active") == "active" && Trim("deprecated") == "deprecated"
  {
    hide Trim;
    TrimKeeps("active");
    TrimKeeps("deprecated");
  }

  lemma StatusValid(reg: Registry, s: string)
    ensures ValidValue(reg, "enum<active|deprecated>", Str(s)) <==> s in {"active", "deprecated"}
  {
    hide Trim, Split, TrimAll, Between, ResolveStruct;
    StatusNames();
    EnumReads("enum<active|deprecated>", "active|deprecated");
    Statuses(s);
  }

  lemma Statuses(s: string)
    ensures s in TrimAll(Split("active|deprecated", '|')) <==> s in {"active", "deprecated"}
  {
    hide Trim, Split;
    StatusNames();
    StatusesTrimmed();
    SplitHead("active", "deprecated");
    SplitLast("deprecated");
    var parts := ["active"] + ["deprecated"];
    assert TrimAll(parts)[0] == "active" && TrimAll(parts)[1] == "deprecated" && |TrimAll(parts)| == 2;
    hide TrimAll;
    assert TrimAll(parts) == ["active", "deprecated"];
  }

  lemma DefinitionFills(reg: Registry, show: Printer, e: Element)
    requires ResolveStruct(reg, "string") == None && e.Definition?
    ensures SchemaOps.Attributes(show, e).Map? && Fills(reg, Declared(ELEMENT), SchemaOps.Attributes(show, e).m)
  {
    hide Fills, Declared, ResolveStruct;
    ElementFills(reg, SchemaOps.Attributes(show, e).m);
  }

  lemma PolicyNodeFills(reg: Registry, show: Printer, e: Element)
    requires ResolveStruct(reg, "string") == None && e.Policy?
    ensures SchemaOps.Attributes(show, e).Map? && Fills(reg, Declared(POLICY), SchemaOps.Attributes(show, e).m)
  {
    hide Fills, Declared, ResolveStruct;
    PolicyFills(reg, SchemaOps.Attributes(show, e).m);
  }

  lemma TermAttributes(show: Printer, e: Element)
    requires e.Term?
    ensures SchemaOps.Attributes(show, e).Map?
    ensures var m := SchemaOps.Attributes(show, e).m;
            && {"name", "taxonomy", "parents"} <= m.Keys <= {"name", "taxonomy", "parents", "status"}
            && ("status" in m <==> e.status.Some?) && (e.status.Some? ==> m["status"] == Str(e.status.value))
  {
    assert "status" !in {"name", "taxonomy", "parents"};
  }

  lemma TermAttribute(reg: Registry, a: string, v: Value)
    requires ResolveStruct(reg, "string") == None && a in {"name", "taxonomy", "parents"}
    ensures a in Declared(TERM) && (GetStr(Declared(TERM)[a], "type").Some? ==> ValidValue(reg, GetStr(Declared(TERM)[a], "type").value, v))
  {
    hide *;
    TermReads();
    StringIsFree(reg, v);
    StringListIsFree(reg, v);
  }

  lemma TermMapFills(reg: Registry, m: map<string, Value>)
    requires ResolveStruct(reg, "string") == None && {"name", "taxonomy", "parents"} <= m.Keys <= {"name", "taxonomy", "parents", "status"}
    ensures Fills(reg, Declared(TERM), m) <==> ("status" in m ==> ValidValue(reg, "enum<active|deprecated>", m["status"]))
  {
    hide ValidValue, Declared, GetStr, ResolveStruct;
    TermReads();
    forall a | a in m && a != "status"
      ensures a in Declared(TERM) && (GetStr(Declared(TERM)[a], "type").Some? ==> ValidValue(reg, GetStr(Declared(TERM)[a], "type").value, m[a]))
    {
      TermAttribute(reg, a, m[a]);
    }
    assert "status" in Declared(TERM);
  }

  lemma TermFills(reg: Registry, show: Printer, e: Element)
    requires ResolveStruct(reg, "string") == None && e.Term?
    ensures SchemaOps.Attributes(show, e).Map?
    ensures Fills(reg, Declared(TERM), SchemaOps.Attributes(show, e).m) <==> GoodStatus(e)
  {
    hide Fills, ValidValue, Declared, ResolveStruct, SchemaOps.Attributes;
    TermAttributes(show, e);
    TermMapFills(reg, SchemaOps.Attributes(show, e).m);
    if e.status.Some? {
      StatusValid(reg, e.status.value);
    }
  }

  lemma AttributesFill(reg: Registry, show: Printer, e: Element)
    requires ResolveStruct(reg, "string") == None
    ensures SchemaOps.Attributes(show, e).Map?
    ensures Fills(reg, Declared(DefOf(e)), SchemaOps.Attributes(show, e).m) <==> GoodStatus(e)
  {
    hide Fills, Declared, ResolveStruct, SchemaOps.Attributes;
    match e {
      case Definition(_, _, _, _, _) => DefinitionFills(reg, show, e);
      case Term(_, _, _, _) => TermFills(reg, show, e);
      case Policy(_, _) => PolicyNodeFills(reg, show, e);
    }
  }

  lemma PayloadReads(show: Printer, id: string, e: Element)
    ensures var n := SchemaOps.NodePayload(show, id, e);
            && GetStr(n, "type") == Some(SchemaOps.ElementType(e) + "@1") && AttributesOf(n) == SchemaOps.Attributes(show, e)
            && KeyOf(n) == Ok(("node", id)) && GetStr(n, "kind") == Some("node") && GetStr(n, "id") == Some(id)
  {
    NodeReads(id, SchemaOps.ElementType(e) + "@1", SchemaOps.Attributes(show, e));
    hide SchemaOps.Attributes, SchemaOps.ElementType, GetStr, AttributesOf, KeyOf;
    assert SchemaOps.NodePayload(show, id, e) == Node(id, SchemaOps.ElementType(e) + "@1", SchemaOps.Attributes(show, e));
  }

  /** A compiled node is valid exactly when it is not a term of an unknown status. */
  lemma ElementValid(reg: Registry, show: Printer, id: string, e: Element)
    requires MetaInstalled(reg)
    ensures ValidateNode(reg, SchemaOps.NodePayload(show, id, e)).Ok? <==> GoodStatus(e)
  {
    hide ResolveType, CollectedAttrs, Fills, ValidateNode, Declared, GetStr, AttributesOf, SchemaOps.Attributes, SchemaOps.NodePayload, ResolveStruct, GoodStatus;
    TypeResolves(reg, e);
    AttributesFill(reg, show, e);
    PayloadReads(show, id, e);
    FilledIsValid(reg, SchemaOps.NodePayload(show, id, e), SchemaOps.ElementType(e) + "@1", Resolved("meta", NameOf(e), DefOf(e)),
                  SchemaOps.Attributes(show, e).m);
  }

  // ---------------------------------------------------------------- the operations

  lemma CreateValid(sha: Sha, reg: Registry, w: Working, show: Printer, id: string, e: Element)
    requires MetaInstalled(reg) && ("node", id) !in w.objects
    ensures ApplyOp(sha, reg, w, SchemaOps.CreateNode(show, id, e)).Ok? <==> GoodStatus(e)
  {
    hide ValidateNode, SchemaOps.NodePayload, MetaInstalled, GoodStatus, ApplyOp, KeyOf;
    ElementValid(reg, show, id, e);
    PayloadReads(show, id, e);
    CreateOne(sha, reg, w, id, SchemaOps.NodePayload(show, id, e));
    assert SchemaOps.CreateNode(show, id, e) == Creates(SchemaOps.NodePayload(show, id, e));
  }

  /** On any state, under ids new to it, the compiled operations are accepted exactly when every term has a known status. */
  lemma {:induction false} CompiledApplies(sha: Sha, reg: Registry, w: Working, show: Printer, mint: Mint, es: seq<Element>)
    requires MetaInstalled(reg) && DistinctIds(mint, |es|) && forall i :: 0 <= i < |es| ==> ("node", mint(i)) !in w.objects
    ensures ApplyOps(sha, reg, w, SchemaOps.CreateNodes(show, mint, es)).Ok? <==> forall e :: e in es ==> GoodStatus(e)
  {
    hide ApplyOp, SchemaOps.CreateNode, MetaInstalled, GoodStatus, Installed;
    if es == [] {
    } else {
      var n := |es| - 1;
      var front, op := SchemaOps.CreateNodes(show, mint, es[..n]), SchemaOps.CreateNode(show, mint(n), es[n]);
      assert es == es[..n] + [es[n]];
      assert SchemaOps.CreateNodes(show, mint, es) == front + [op];
      CompiledApplies(sha, reg, w, show, mint, es[..n]);
      ApplyOpsAppend(sha, reg, w, front, [op]);
      var before := ApplyOps(sha, reg, w, front);
      if before.Ok? {
        InstalledByFold(sha, reg, w, show, mint, es[..n]);
        InstalledAt(sha, show, mint, es[..n]);
        assert ("node", mint(n)) !in before.value.objects;
        OneOp(sha, reg, before.value, op);
        CreateValid(sha, reg, before.value, show, mint(n), es[n]);
      }
    }
  }

  // ---------------------------------------------------------------- read under the schema it installs

  lemma CompiledWrites(show: Printer, id: string, e: Element)
    ensures var payload := SchemaOps.NodePayload(show, id, e);
            && WritesMeta(Touched("create", payload)) && PayloadType(payload) == Some(SchemaOps.ElementType(e) + "@1") && GetStr(payload, "id") == Some(id)
  {
    hide IsMetaType, SchemaOps.NodePayload, SchemaOps.ElementType, GetStr;
    PayloadReads(show, id, e);
    RefReads(e);
  }

  lemma CompiledSpeculates(env: Env, s: Objects, show: Printer, id: string, e: Element)
    ensures Speculate(env, s, [SchemaOps.CreateNode(show, id, e)])
         == s[("node", id) := NewObject(env.sha, SchemaOps.NodePayload(show, id, e))]
  {
    hide NewObject, ResolveType, WritesMeta, PayloadType, SchemaOps.NodePayload, SchemaOps.ElementType, GetStr, SpeculateOp, Speculate;
    CompiledWrites(show, id, e);
    MetaIsInstalled();
    TypeResolves(META_REGISTRY, e);
    CreateSpeculates(env, s, SchemaOps.NodePayload(show, id, e), id);
    assert SchemaOps.CreateNode(show, id, e) == Creates(SchemaOps.NodePayload(show, id, e));
    OneSpeculates(env, s, SchemaOps.CreateNode(show, id, e));
  }

  lemma {:induction false} InstallSpeculates(env: Env, show: Printer, mint: Mint, es: seq<Element>)
    ensures Speculate(env, map[], SchemaOps.CreateNodes(show, mint, es)) == Installed(env.sha, show, mint, es)
  {
    hide SchemaOps.CreateNode, SchemaOps.NodePayload, NewObject, SpeculateOp;
    if es == [] {
      assert SchemaOps.CreateNodes(show, mint, es) == [];
    } else {
      var n := |es| - 1;
      var front, op := SchemaOps.CreateNodes(show, mint, es[..n]), SchemaOps.CreateNode(show, mint(n), es[n]);
      assert SchemaOps.CreateNodes(show, mint, es) == front + [op];
      InstallSpeculates(env, show, mint, es[..n]);
      SpeculateAppend(env, map[], front, [op]);
      CompiledSpeculates(env, Installed(env.sha, show, mint, es[..n]), show, mint(n), es[n]);
    }
  }

  lemma CreateIsMeta(show: Printer, id: string, e: Element)
    ensures OpTouchesMeta(map[], SchemaOps.CreateNode(show, id, e)) && OpIn(META_REFS, SchemaOps.CreateNode(show, id, e))
  {
    hide ParseOp, IsMetaType, SchemaOps.NodePayload, SchemaOps.ElementType, GetStr;
    PayloadReads(show, id, e);
    RefReads(e);
    ParsesSingle("create", SchemaOps.NodePayload(show, id, e));
  }

  lemma CreatesAreMeta(show: Printer, mint: Mint, es: seq<Element>)
    ensures forall op :: op in SchemaOps.CreateNodes(show, mint, es) ==> OpIn(META_REFS, op)
  {
    hide SchemaOps.CreateNode, OpIn, OpTouchesMeta;
    var ops := SchemaOps.CreateNodes(show, mint, es);
    forall op | op in ops ensures OpIn(META_REFS, op) {
      var i :| 0 <= i < |ops| && ops[i] == op;
      CreateIsMeta(show, mint(i), es[i]);
    }
  }

  lemma GenesisRegistry(env: Env, show: Printer, mint: Mint, es: seq<Element>, cs: Value)
    requires es != [] && OpsOf(cs) == SchemaOps.CreateNodes(show, mint, es)
    ensures RegistryFor(env, map[], true, cs) == FromState(env.parse, Installed(env.sha, show, mint, es))
  {
    hide SchemaOps.CreateNode, FromState, Speculate, Installed, OpTouchesMeta;
    InstallSpeculates(env, show, mint, es);
    CreateIsMeta(show, mint(0), es[0]);
    assert OpsOf(cs)[0] == SchemaOps.CreateNode(show, mint(0), es[0]);
    assert TouchesMeta(map[], cs);
  }

  lemma HasOperations(sha: Sha, cs: Value)
    requires CheckHeader(sha, cs).Ok?
    ensures CheckHeader(sha, cs).value != [] && OpsOf(cs) == CheckHeader(sha, cs).value
  {
    hide Preimage;
    assert OpLeaves(sha, []) == [];
  }

  lemma {:induction false} InstalledNodes(sha: Sha, show: Printer, mint: Mint, es: seq<Element>)
    ensures forall k :: k in Installed(sha, show, mint, es) ==> k.0 == "node"
  {
    hide NewObject, SchemaOps.NodePayload;
    if es == [] {
    } else {
      InstalledNodes(sha, show, mint, es[..|es| - 1]);
    }
  }

  /** What the compiled operations make of an empty state, for the rules to look at. */
  function InstallWorking(sha: Sha, reg: Registry, show: Printer, mint: Mint, es: seq<Element>): Result<Working> {
    ApplyOps(sha, reg, Working(map[], [], []), SchemaOps.CreateNodes(show, mint, es))
  }

  /** Under a schema that keeps the meta package, the documents install exactly when their terms have a known status and the rules hold. */
  lemma CompiledInstalls(sha: Sha, reg: Registry, show: Printer, mint: Mint, es: seq<Element>, cs: Value)
    requires MetaInstalled(reg) && DistinctIds(mint, |es|)
    requires CheckHeader(sha, cs) == Ok(SchemaOps.CreateNodes(show, mint, es))
    ensures InstallWorking(sha, reg, show, mint, es).Ok? <==> forall e :: e in es ==> GoodStatus(e)
    ensures var w := InstallWorking(sha, reg, show, mint, es);
            && (Apply(sha, reg, map[], cs).Ok? <==> w.Ok? && RulesHold(reg, w.value))
            && (w.Ok? && RulesPassOver(reg, META_REFS) ==> RulesHold(reg, w.value))
    ensures Apply(sha, reg, map[], cs).Ok? ==> Apply(sha, reg, map[], cs) == Ok(Installed(sha, show, mint, es))
  {
    hide ApplyOps, SchemaOps.CreateNode, MetaInstalled, GoodStatus, Installed, RulesPassOver, RulesHold, NoDangling, CheckHeader, DistinctIds, OpIn, SchemaOps.CreateNodes;
    CompiledApplies(sha, reg, Working(map[], [], []), show, mint, es);
    var ops := SchemaOps.CreateNodes(show, mint, es);
    if ApplyOps(sha, reg, Working(map[], [], []), ops).Ok? {
      InstalledByFold(sha, reg, Working(map[], [], []), show, mint, es);
      assert map[] + Installed(sha, show, mint, es) == Installed(sha, show, mint, es);
      InstalledNodes(sha, show, mint, es);
      NodesDoNotDangle(Installed(sha, show, mint, es));
      CreatesAreMeta(show, mint, es);
      if RulesPassOver(reg, META_REFS) {
        OpsPass(META_REFS, sha, reg, map[], ops);
      }
    }
  }

  /**
   * The genesis changeset of compiled documents is read under the registry those documents load, and is
   * accepted exactly when every term states a known status or none and the documents' own rules hold.
   * Replay then derives that registry.
   */
  lemma GenesisInstalls(env: Env, show: Printer, mint: Mint, docs: seq<Named>, policy: Option<Value>, cs: Value)
    requires Proper(docs)
    requires DistinctIds(mint, |SchemaOps.Elements(docs, policy)|) && AllPrint(env.parse, show, SchemaOps.Elements(docs, policy))
    requires CheckHeader(env.sha, cs) == Ok(SchemaOps.CreateNodes(show, mint, SchemaOps.Elements(docs, policy)))
    ensures RegistryFor(env, map[], true, cs).Ok? && ReadsBack(RegistryFor(env, map[], true, cs).value, SchemaOps.LoadDocs(docs))
    ensures var reg, es := RegistryFor(env, map[], true, cs).value, SchemaOps.Elements(docs, policy);
            var w := InstallWorking(env.sha, reg, show, mint, es);
            "meta" !in SchemaOps.LoadDocs(docs).packages && ResolveStruct(reg, "string") == None ==>
              && (w.Ok? <==> forall e :: e in es ==> GoodStatus(e))
              && (Apply(env.sha, reg, map[], cs).Ok? <==> w.Ok? && RulesHold(reg, w.value))
              && (w.Ok? && RulesPassOver(reg, META_REFS) ==> RulesHold(reg, w.value))
              && (Apply(env.sha, reg, map[], cs).Ok? ==> FromState(env.parse, Apply(env.sha, reg, map[], cs).value) == Ok(reg))
  {
    hide Proper, DistinctIds, AllPrint, SchemaOps.Elements, SchemaOps.CreateNode, FromState, Installed, ReadsBack, GoodStatus, Apply, RulesPassOver, CheckHeader,
         SchemaOps.LoadDocs, ResolveStruct, RegistryFor, RulesHold, InstallWorking;
    var es := SchemaOps.Elements(docs, policy);
    CompiledReadsBack(env.parse, env.sha, show, mint, docs, policy);
    HasOperations(env.sha, cs);
    GenesisRegistry(env, show, mint, es, cs);
    var reg := RegistryFor(env, map[], true, cs).value;
    if "meta" !in SchemaOps.LoadDocs(docs).packages && ResolveStruct(reg, "string") == None {
      KeepsMeta(reg, SchemaOps.LoadDocs(docs));
      CompiledInstalls(env.sha, reg, show, mint, es, cs);
    }
  }

  lemma KeepsMeta(reg: Registry, loaded: Registry)
    requires ReadsBack(reg, loaded) && "meta" !in loaded.packages && ResolveStruct(reg, "string") == None
    ensures MetaInstalled(reg)
  {
    hide ResolveStruct, SamePackage;
  }
}
