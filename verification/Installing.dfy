/**
 * Installing nodes one at a time (crates/allod-core/src/fold.rs:150-292, crates/allod-core/src/store.rs:72-130):
 * what one create operation does to the state and to the schema a genesis is read under, and when the
 * seeded meta package accepts a node.
 */
module Installing {
  import opened Text
  import opened Values
  import opened Hashing
  import opened Objects
  import opened Registries
  import opened Meta
  import opened Fold
  import opened Replay

  // ---------------------------------------------------------------- nodes

  function Node(id: string, t: string, attributes: Value): Value {
    Map(map["kind" := Str("node"), "id" := Str(id), "type" := Str(t), "attributes" := attributes])
  }

  lemma NodeReads(id: string, t: string, attributes: Value)
    ensures var n := Node(id, t, attributes);
            && GetStr(n, "type") == Some(t) && AttributesOf(n) == attributes && KeyOf(n) == Ok(("node", id))
            && GetStr(n, "kind") == Some("node") && GetStr(n, "id") == Some(id) && "prior" !in n.m
  {
  }

  // ---------------------------------------------------------------- the meta package

  lemma MetaNames()
    ensures Bare("meta/EntityType") == "meta/EntityType" && Bare("meta/Policy") == "meta/Policy"
    ensures IsMetaType("meta/EntityType") && IsMetaType("meta/Policy")
  {
    hide *;
    assert '@' !in "meta/EntityType" && '@' !in "meta/Policy";
    BareIs("meta/EntityType");
    BareIs("meta/Policy");
    MetaKnown();
  }

  lemma MetaKnown()
    requires Bare("meta/EntityType") == "meta/EntityType" && Bare("meta/Policy") == "meta/Policy"
    ensures IsMetaType("meta/EntityType") && IsMetaType("meta/Policy")
  {
    hide Bare;
    assert "meta/EntityType" in META_TYPES && "meta/Policy" in META_TYPES;
  }

  /** A type outside the meta package's namespace is no meta type. */
  lemma NotMeta(t: string)
    requires Bare(t) == t && (|t| < 4 || t[0] != 'm')
    ensures !IsMetaType(t)
  {
    hide Bare;
    assert forall m :: m in META_TYPES ==> |m| > 4 && m[0] == 'm';
  }

  lemma MetaTypesThere()
    ensures Get(META_PACKAGE.types, "EntityType") == Some(ELEMENT) && Get(META_PACKAGE.types, "Policy") == Some(POLICY)
  {
    assert "Policy"[0] != "EntityType"[0];
  }

  lemma MetaTypesResolve(reg: Registry)
    requires "meta" in reg.packages && reg.packages["meta"] == META_PACKAGE
    ensures ResolveType(reg, "meta/EntityType", None) == Some(Resolved("meta", "EntityType", ELEMENT))
    ensures CollectedAttrs(reg, "meta", "EntityType") == Declared(ELEMENT)
    ensures ResolveType(reg, "meta/Policy", None) == Some(Resolved("meta", "Policy", POLICY))
    ensures CollectedAttrs(reg, "meta", "Policy") == Declared(POLICY)
  {
    MetaTypesThere();
    hide *;
    MetaNames();
    assert "meta/" + "EntityType" == "meta/EntityType" && '/' !in "EntityType";
    assert "meta/" + "Policy" == "meta/Policy" && '/' !in "Policy";
    ElementReads();
    PolicyReads();
    MetaResolves(reg, "meta/EntityType", "EntityType", ELEMENT);
    MetaResolves(reg, "meta/Policy", "Policy", POLICY);
  }

  lemma MetaIsInstalled()
    ensures "meta" in META_REGISTRY.packages && META_REGISTRY.packages["meta"] == META_PACKAGE
  {
  }

  /** An element is described by its name, its package, its definition, and imports if there are any. */
  lemma ElementFills(reg: Registry, m: map<string, Value>)
    requires ResolveStruct(reg, "string") == None && {"name", "package", "definition"} <= m.Keys <= {"name", "package", "definition", "imports"}
    ensures Fills(reg, Declared(ELEMENT), m)
  {
    ElementReads();
    ImportListReads();
    hide ValidValue, Declared, GetStr, ResolveStruct;
    forall a | a in m ensures ValidValue(reg, "string", m[a]) && ValidValue(reg, "list<string>", m[a]) {
      StringIsFree(reg, m[a]);
      StringListIsFree(reg, m[a]);
    }
  }

  lemma PolicyFills(reg: Registry, m: map<string, Value>)
    requires ResolveStruct(reg, "string") == None && m.Keys == {"name", "definition"}
    ensures Fills(reg, Declared(POLICY), m)
  {
    PolicyReads();
    hide ValidValue, Declared, GetStr, ResolveStruct;
    forall a | a in m ensures ValidValue(reg, "string", m[a]) {
      StringIsFree(reg, m[a]);
    }
  }

  lemma NothingAssembles()
    ensures Assemble(NOTHING) == META_REGISTRY
  {
    assert PackageNames(NOTHING) == {};
  }

  // ---------------------------------------------------------------- one create operation

  function Creates(payload: Value): Value {
    Map(map["create" := payload])
  }

  lemma CreateOne(sha: Sha, reg: Registry, w: Working, id: string, payload: Value)
    requires KeyOf(payload) == Ok(("node", id)) && ("node", id) !in w.objects
    ensures ApplyOp(sha, reg, w, Creates(payload)).Ok? <==> ValidateNode(reg, payload).Ok?
    ensures ValidateNode(reg, payload).Ok? ==>
              var made := Working(w.objects[("node", id) := NewObject(sha, payload)], w.created, w.touched + [Touched("create", payload)]);
              ApplyOp(sha, reg, w, Creates(payload)) == Ok(made)
  {
    ParsesSingle("create", payload);
    assert "node"[0] != "edge"[0];
    hide ParseOp, KeyOf, ValidateNode, NewObject;
  }

  ghost predicate NodesOnly(s: Objects) {
    forall k :: k in s ==> k.0 == "node"
  }

  ghost predicate Ruleless(reg: Registry) {
    forall p :: p in reg.packages ==> !reg.packages[p].rules.Seq?
  }

  lemma NodesDoNotDangle(s: Objects)
    requires NodesOnly(s)
    ensures NoDangling(s)
  {
    assert "node"[0] != "edge"[0];
  }

  lemma Finishes(reg: Registry, w: Working)
    requires NodesOnly(w.objects) && Ruleless(reg)
    ensures Finish(reg, w) == Ok(w.objects)
  {
    NodesDoNotDangle(w.objects);
    hide CheckRule, NoDangling;
  }

  // ---------------------------------------------------------------- the schema a genesis installs

  lemma {:induction false} SpeculateAppend(env: Env, s: Objects, a: seq<Value>, b: seq<Value>)
    ensures Speculate(env, s, a + b) == Speculate(env, Speculate(env, s, a), b)
    decreases |a|
  {
    hide SpeculateOp;
    if a == [] {
      assert a + b == b;
    } else {
      assert (a + b)[0] == a[0] && (a + b)[1..] == a[1..] + b;
      SpeculateAppend(env, SpeculateOp(env, s, a[0]), a[1..], b);
    }
  }

  lemma OneSpeculates(env: Env, s: Objects, op: Value)
    ensures Speculate(env, s, [op]) == SpeculateOp(env, s, op)
  {
    hide SpeculateOp;
    assert [op][0] == op && [op][1..] == [];
    assert forall t: Objects :: Speculate(env, t, []) == t;
  }

  /** A create of a meta node of a known type is taken at its word; of any other node it is passed over. */
  lemma CreateSpeculates(env: Env, s: Objects, payload: Value, id: string)
    requires GetStr(payload, "id") == Some(id)
    requires WritesMeta(Touched("create", payload)) ==> ResolveType(META_REGISTRY, PayloadType(payload).value, None).Some?
    ensures SpeculateOp(env, s, Creates(payload)) == if WritesMeta(Touched("create", payload)) then s[("node", id) := NewObject(env.sha, payload)] else s
  {
    ParsesSingle("create", payload);
    assert "update"[0] != "create"[0];
    hide ParseOp, NewObject, ResolveType, WritesMeta, PayloadType, GetStr;
  }
}
