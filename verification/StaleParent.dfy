/**
 * Admission does not look at a changeset's parent (crates/allod-graph/src/ops.rs:215-269,
 * crates/allod-graph/src/flows.rs:473-582). This is a graph on which that loses a changeset: a
 * proposal is held, another changeset is admitted, and the proposal is approved afterwards.
 */
module StaleParent {
  import opened Text
  import opened Values
  import opened Hashing
  import opened Model
  import opened Objects
  import opened Registries
  import opened Meta
  import opened Fold
  import opened Replay
  import opened Installing
  import opened Store
  import opened Policy
  import opened Quorum
  import opened Admission

  // ---------------------------------------------------------------- schema, policy and people

  const USER_DEF := Map(map["attributes" := Map(USER_ATTRIBUTES)])

  const USER_ATTRIBUTES: map<string, Value> := map["display_name" := Map(map[]), "keys" := Map(map[]), "title" := Map(map[])]

  /** Updates need the approval of an owner; anything else is free. */
  const RULE := Map(map["name" := Str("updates"), "select" := SELECT, "require" := REQUIRE])

  const SELECT := Map(map["operation" := Str("update")])

  const REQUIRE := Map(map["reviewers" := Map(map["role" := Str("owner")])])

  const DOC := Map(map["default_posture" := Str("open"), "rules" := Seq([RULE]), "roles" := Map(map["owner" := Seq([Str("principal:u")])])])

  const A: Key := ("node", "a")
  const B: Key := ("node", "b")
  const U: Key := ("node", "u")

  const TYPE_FIELDS := map["name" := Str("User"), "package" := Str("core"), "definition" := Str("D")]

  const POLICY_FIELDS := map["name" := Str("p"), "definition" := Str("P")]

  const KEY := Map(map["status" := Str("active"), "public" := Str("k")])

  function UserFields(title: string): map<string, Value> {
    map["display_name" := Str("u"), "keys" := Seq([KEY]), "title" := Str(title)]
  }

  const VISITOR_FIELDS := map["display_name" := Str("v")]

  function User(title: string): Value {
    Node("u", "core/User", Map(UserFields(title)))
  }

  function Visitor(id: string): Value {
    Node(id, "core/User", Map(VISITOR_FIELDS))
  }

  const TYPE_NODE := Node("a", "meta/EntityType", Map(TYPE_FIELDS))

  const POLICY_NODE := Node("b", "meta/Policy", Map(POLICY_FIELDS))

  const CORE := Package(Map(map["User" := USER_DEF]), Null, Null, Null, [])

  const REG := Registry(META_REGISTRY.packages["core" := CORE], map[])

  /** The parser reads the two definitions, and the user's signatures verify. */
  ghost predicate Given(set0: Setting) {
    && set0.env.sha == set0.trust.sha
    && set0.env.parse("D") == Some(USER_DEF) && set0.env.parse("P") == Some(DOC)
    && forall m :: set0.trust.verify("k", m, "sig:ed25519:" + m)
  }

  predicate Stands(s: Objects, k: Key, content: Value) {
    k in s && !s[k].deleted && s[k].content == content
  }

  /** The schema, the policy, the user, and visitors. */
  ghost predicate Staged(s: Objects, title: string) {
    && Stands(s, A, TYPE_NODE) && Stands(s, B, POLICY_NODE) && Stands(s, U, User(title))
    && forall k :: k in s && k !in {A, B, U} ==> k.0 == "node" && Stands(s, k, Visitor(k.1))
  }

  // ---------------------------------------------------------------- names and fields

  lemma NamesRead()
    ensures Bare("core/User") == "core/User" && RSplitOnce("core/User", '/') == Some(("core", "User"))
    ensures Bare("meta/EntityType") == "meta/EntityType" && Bare("meta/Policy") == "meta/Policy"
  {
    hide *;
    assert '@' !in "core/User" && '/' !in "User" && "core" + "/" + "User" == "core/User";
    BareIs("core/User");
    MetaNames();
    QualifiedSplits("core", "User");
  }

  lemma TypesRead()
    ensures IsMetaType("meta/EntityType") && IsMetaType("meta/Policy") && !IsMetaType("core/User")
    ensures PrincipalKind("core/User") == Some("user")
    ensures "meta/Policy" != "meta/EntityType" && "core/User" != "meta/Policy"
  {
    hide Bare, IsMetaType;
    NamesRead();
    MetaNames();
    assert "core/User"[0] == 'c' && "meta/Policy"[5] == 'P' && "meta/EntityType"[5] == 'E';
    NotMeta("core/User");
  }

  lemma ContentsRead()
    ensures GetStr(TYPE_NODE, "type") == Some("meta/EntityType") && AttributesOf(TYPE_NODE) == Map(TYPE_FIELDS)
    ensures GetStr(POLICY_NODE, "type") == Some("meta/Policy") && AttributesOf(POLICY_NODE) == Map(POLICY_FIELDS)
    ensures forall id :: GetStr(Visitor(id), "type") == Some("core/User") && AttributesOf(Visitor(id)) == Map(VISITOR_FIELDS)
    ensures forall t :: GetStr(User(t), "type") == Some("core/User") && AttributesOf(User(t)) == Map(UserFields(t))
  {
    hide Node;
    NodeReads("a", "meta/EntityType", Map(TYPE_FIELDS));
    NodeReads("b", "meta/Policy", Map(POLICY_FIELDS));
    forall id ensures GetStr(Visitor(id), "type") == Some("core/User") && AttributesOf(Visitor(id)) == Map(VISITOR_FIELDS) {
      NodeReads(id, "core/User", Map(VISITOR_FIELDS));
    }
    forall t ensures GetStr(User(t), "type") == Some("core/User") && AttributesOf(User(t)) == Map(UserFields(t)) {
      NodeReads("u", "core/User", Map(UserFields(t)));
    }
  }

  lemma FieldsRead()
    ensures GetStr(Map(POLICY_FIELDS), "definition") == Some("P")
    ensures GetStr(Map(VISITOR_FIELDS), "package") == None && GetStr(Map(VISITOR_FIELDS), "taxonomy") == None
    ensures GetStr(Map(VISITOR_FIELDS), "display_name") == Some("v")
    ensures forall t :: GetStr(Map(UserFields(t)), "package") == None && GetStr(Map(UserFields(t)), "taxonomy") == None
    ensures forall t :: GetStr(Map(UserFields(t)), "display_name") == Some("u") && GetSeq(Map(UserFields(t)), "keys") == Some([KEY])
  {
    assert "package"[0] != "display_name"[0] && "package"[0] != "keys"[0] && "package"[0] != "title"[0];
    assert |"taxonomy"| == 8 && |"display_name"| == 12 && |"keys"| == 4 && |"title"| == 5;
  }

  // ---------------------------------------------------------------- what a stage means

  function Typed(g: Gathered): Gathered {
    g.(types := Put(g.types, "core", "User", USER_DEF))
  }

  lemma RecordType(parse: Parser, g: Gathered)
    requires parse("D") == Some(USER_DEF)
    ensures Record(parse, g, "meta/EntityType", Map(TYPE_FIELDS)) == Ok(Typed(g))
  {
    assert GetStr(Map(TYPE_FIELDS), "name") == Some("User") && GetStr(Map(TYPE_FIELDS), "package") == Some("core");
    assert GetStr(Map(TYPE_FIELDS), "definition") == Some("D") && GetSeq(Map(TYPE_FIELDS), "imports") == None;
  }

  lemma KeysApart()
    ensures A != B && A != U && B != U
  {
    assert "a"[0] != "b"[0] && "a"[0] != "u"[0] && "b"[0] != "u"[0];
  }

  lemma StageTypes(s: Objects, title: string, k: Key)
    requires Staged(s, title) && k in s
    ensures k.0 == "node" && !s[k].deleted
    ensures k == A ==> LiveType(s, k) == Some("meta/EntityType") && AttributesOf(s[k].content) == Map(TYPE_FIELDS)
    ensures k == B ==> LiveType(s, k) == Some("meta/Policy") && AttributesOf(s[k].content) == Map(POLICY_FIELDS)
    ensures k == U ==> LiveType(s, k) == Some("core/User") && AttributesOf(s[k].content) == Map(UserFields(title))
    ensures k !in {A, B, U} ==> LiveType(s, k) == Some("core/User") && AttributesOf(s[k].content) == Map(VISITOR_FIELDS)
  {
    hide AttributesOf, User, Visitor, GetStr, UserFields;
    KeysApart();
    ContentsRead();
  }

  lemma StageVisit(parse: Parser, s: Objects, title: string, k: Key, g: Gathered)
    requires Staged(s, title) && k in s && parse("D") == Some(USER_DEF)
    ensures Visit(parse, s, k, g) == Ok(if k == A then Typed(g) else g)
  {
    hide Staged, Record, AttributesOf, LiveType, IsMetaType, Bare, Typed, GetStr, UserFields, PrincipalKind, GetSeq;
    StageTypes(s, title, k);
    TypesRead();
    NamesRead();
    FieldsRead();
    KeysApart();
    RecordType(parse, g);
    PolicyIsNotRecorded(parse, g, Map(POLICY_FIELDS));
    if k == A || k == B {
      assert IsMetaNode(s, k) && !ClaimsMeta(s, k);
    } else {
      assert !IsMetaNode(s, k) && !ClaimsMeta(s, k);
    }
  }

  lemma TypedTwice(g: Gathered)
    ensures Typed(Typed(g)) == Typed(g)
  {
    var m := Put(g.types, "core", "User", USER_DEF);
    assert m["core"]["User" := USER_DEF] == m["core"];
    assert Put(m, "core", "User", USER_DEF) == m;
  }

  lemma {:induction false} StageGathers(parse: Parser, s: Objects, title: string, keys: seq<Key>, g: Gathered)
    requires Staged(s, title) && parse("D") == Some(USER_DEF) && forall k :: k in keys ==> k in s
    ensures Gather(parse, s, keys, g) == Ok(if A in keys then Typed(g) else g)
  {
    hide Staged, Visit, Typed;
    if keys == [] {
    } else {
      assert keys == [keys[0]] + keys[1..];
      StageVisit(parse, s, title, keys[0], g);
      StageGathers(parse, s, title, keys[1..], if keys[0] == A then Typed(g) else g);
      TypedTwice(g);
    }
  }

  lemma Assembled()
    ensures Assemble(Typed(NOTHING)) == REG
  {
    var g := Typed(NOTHING);
    assert g.types == map["core" := map["User" := USER_DEF]];
    assert PackageNames(g) == {"core"};
    assert AssemblePackage(g, "core") == CORE;
  }

  lemma StageRegistry(parse: Parser, s: Objects, title: string)
    requires Staged(s, title) && parse("D") == Some(USER_DEF)
    ensures FromState(parse, s) == Ok(REG)
  {
    hide Gather, Assemble, Typed;
    StageGathers(parse, s, title, InOrder(s.Keys), NOTHING);
    Assembled();
  }

  lemma {:induction false} FirstPolicyIs(parse: Parser, s: Objects, keys: seq<Key>, k: Key, doc: Value)
    requires forall j :: j in keys ==> j in s && (IsPolicyNode(s, j) <==> j == k)
    requires k in keys && k in s && GetStr(AttributesOf(s[k].content), "definition") == Some("P") && parse("P") == Some(doc)
    ensures FirstPolicy(parse, s, keys) == Ok(doc)
  {
    hide IsPolicyNode, AttributesOf, GetStr;
    if keys[0] != k {
      assert keys == [keys[0]] + keys[1..];
      FirstPolicyIs(parse, s, keys[1..], k, doc);
    }
  }

  lemma StagePolicy(parse: Parser, s: Objects, title: string)
    requires Staged(s, title) && parse("P") == Some(DOC)
    ensures PolicyOf(parse, s) == Ok(DOC)
  {
    hide FirstPolicy, AttributesOf, GetStr, LiveType, Bare, UserFields;
    TypesRead();
    NamesRead();
    FieldsRead();
    KeysApart();
    forall j | j in InOrder(s.Keys) ensures j in s && (IsPolicyNode(s, j) <==> j == B) {
      StageTypes(s, title, j);
    }
    StageTypes(s, title, B);
    FirstPolicyIs(parse, s, InOrder(s.Keys), B, DOC);
  }

  lemma StageNames(s: Objects, title: string, k: Key)
    requires Staged(s, title)
    ensures IsPrincipal(s, k, "u") <==> k == U
  {
    hide AttributesOf, GetStr, Bare, UserFields, PrincipalKind, Staged, LiveType;
    if k in s {
      StageTypes(s, title, k);
      LiveTypeIs(s, k);
      TypesRead();
      NamesRead();
      FieldsRead();
      KeysApart();
      NoName();
    } else {
      StageHasUser(s, title);
    }
  }

  lemma StageHasUser(s: Objects, title: string)
    requires Staged(s, title)
    ensures U in s
  {
  }

  lemma NoName()
    ensures GetStr(Map(TYPE_FIELDS), "display_name") == None && GetStr(Map(POLICY_FIELDS), "display_name") == None
    ensures "v" != "u"
  {
    assert |"display_name"| == 12 && |"name"| == 4 && |"package"| == 7 && |"definition"| == 10;
    assert "v"[0] != "u"[0];
  }

  lemma LiveTypeIs(s: Objects, k: Key)
    requires k in s && k.0 == "node" && !s[k].deleted
    ensures LiveType(s, k) == GetStr(s[k].content, "type")
  {
  }

  lemma StageFinds(s: Objects, title: string)
    requires Staged(s, title)
    ensures FindPrincipal(s, "principal:u") == Some(U) && U in s
  {
    hide *;
    StageHasUser(s, title);
    forall k ensures IsPrincipal(s, k, "u") <==> k == U {
      StageNames(s, title, k);
    }
    assert "principal:" + "u" == "principal:u";
    FindPrincipalIs(s, "u");
  }

  lemma StageUser(s: Objects, title: string)
    requires Staged(s, title)
    ensures FindPrincipal(s, "principal:u") == Some(U) && U in s && KeyRecords(s[U]) == [KEY]
    ensures AuthorKind(s, "principal:u") == Ok("user")
  {
    hide FindPrincipal, AttributesOf, GetStr, GetSeq, Bare, UserFields, PrincipalKind, Staged, LiveType;
    StageFinds(s, title);
    StageTypes(s, title, U);
    LiveTypeIs(s, U);
    NamesRead();
    TypesRead();
    FieldsRead();
  }

  // ---------------------------------------------------------------- what the fold accepts

  lemma Schema()
    ensures "meta" in REG.packages && REG.packages["meta"] == META_PACKAGE
    ensures "core" in REG.packages && REG.packages["core"] == CORE
    ensures ResolveStruct(REG, "string") == None
    ensures Ruleless(REG)
  {
    assert "core"[0] != "meta"[0];
    assert forall p :: p in REG.packages ==> Get(REG.packages[p].structs, "string").None?;
  }

  lemma UserDef()
    ensures GetStr(USER_DEF, "extends") == None && Declared(USER_DEF) == USER_ATTRIBUTES
    ensures forall a :: a in USER_ATTRIBUTES ==> !IsRequired(USER_ATTRIBUTES[a]) && GetStr(USER_ATTRIBUTES[a], "type") == None
  {
    assert "extends"[0] != "attributes"[0];
  }

  lemma UserResolves()
    ensures ResolveType(REG, "core/User", None) == Some(Resolved("core", "User", USER_DEF))
    ensures CollectedAttrs(REG, "core", "User") == USER_ATTRIBUTES
  {
    NamesRead();
    UserDef();
    Schema();
    hide Bare, RSplitOnce, Declared, GetStr;
    assert Get(CORE.types, "User") == Some(USER_DEF);
    assert TypeIn(REG, "core", "User") == Some(Resolved("core", "User", USER_DEF));
    assert Extended(REG, Resolved("core", "User", USER_DEF)) == None;
  }

  lemma UserValid(payload: Value, given: map<string, Value>)
    requires GetStr(payload, "type") == Some("core/User") && AttributesOf(payload) == Map(given)
    requires given.Keys <= USER_ATTRIBUTES.Keys
    ensures ValidateNode(REG, payload).Ok?
  {
    hide ResolveType, CollectedAttrs, ValidateNode, GetStr, AttributesOf, IsRequired, ValidValue;
    UserResolves();
    UserDef();
    FilledIsValid(REG, payload, "core/User", Resolved("core", "User", USER_DEF), given);
  }

  lemma PeopleValid(id: string, title: string)
    ensures ValidateNode(REG, Visitor(id)).Ok? && ValidateNode(REG, User(title)).Ok?
  {
    hide ValidateNode, Node, GetStr, AttributesOf;
    ContentsRead();
    UserValid(Visitor(id), VISITOR_FIELDS);
    UserValid(User(title), UserFields(title));
  }

  lemma SchemaValid()
    ensures ValidateNode(REG, TYPE_NODE).Ok? && ValidateNode(REG, POLICY_NODE).Ok?
  {
    hide ResolveType, CollectedAttrs, Fills, Declared, GetStr, AttributesOf, ValidateNode;
    ContentsRead();
    Schema();
    MetaTypesResolve(REG);
    ElementFills(REG, TYPE_FIELDS);
    PolicyFills(REG, POLICY_FIELDS);
    FilledIsValid(REG, TYPE_NODE, "meta/EntityType", Resolved("meta", "EntityType", ELEMENT), TYPE_FIELDS);
    FilledIsValid(REG, POLICY_NODE, "meta/Policy", Resolved("meta", "Policy", POLICY), POLICY_FIELDS);
  }

  /** Anyone may add a visitor. */
  lemma VisitorApplies(sha: Sha, s: Objects, title: string, cs: Value, id: string)
    requires Staged(s, title) && ("node", id) !in s && CheckHeader(sha, cs) == Ok([Creates(Visitor(id))])
    ensures Apply(sha, REG, s, cs) == Ok(s[("node", id) := NewObject(sha, Visitor(id))])
    ensures Staged(s[("node", id) := NewObject(sha, Visitor(id))], title)
  {
    NodeReads(id, "core/User", Map(VISITOR_FIELDS));
    PeopleValid(id, title);
    StagedMore(sha, s, title, id);
    hide CheckHeader, ValidateNode, KeyOf, RevisionHash, Node, ApplyOp, ApplyOps, Finish, Staged;
    var w := Working(s, [], []);
    CreateOne(sha, REG, w, id, Visitor(id));
    OneOp(sha, REG, w, Creates(Visitor(id)));
    Schema();
    Finishes(REG, ApplyOp(sha, REG, w, Creates(Visitor(id))).value);
  }

  lemma StagedMore(sha: Sha, s: Objects, title: string, id: string)
    requires Staged(s, title) && ("node", id) !in s
    ensures Staged(s[("node", id) := NewObject(sha, Visitor(id))], title) && NodesOnly(s[("node", id) := NewObject(sha, Visitor(id))])
  {
    hide RevisionHash, Node;
    KeysApart();
  }

  function UpdatePayload(title: string, prior: string): Value {
    Map(User(title).m["prior" := Str(prior)])
  }

  function Updates(title: string, prior: string): Value {
    Map(map["update" := UpdatePayload(title, prior)])
  }

  lemma UpdateReads(title: string, prior: string)
    ensures var payload := UpdatePayload(title, prior);
            && ParseOp(Updates(title, prior)) == Ok(Touched("update", payload)) && KeyOf(payload) == Ok(U)
            && GetStr(payload, "prior") == Some(prior) && Remove(payload, "prior") == User(title)
            && GetStr(payload, "kind") == Some("node") && GetStr(payload, "id") == Some("u") && GetStr(payload, "type") == Some("core/User")
  {
    NodeReads("u", "core/User", Map(UserFields(title)));
    var payload := UpdatePayload(title, prior);
    ParsesSingle("update", payload);
    assert User(title).m["prior" := Str(prior)] - {"prior"} == User(title).m;
    assert "prior" !in {"kind", "id", "type"};
    hide ParseOp;
    assert Get(payload, "kind") == Get(User(title), "kind") && Get(payload, "id") == Get(User(title), "id") && Get(payload, "type") == Get(User(title), "type");
  }

  lemma StagedUpdate(sha: Sha, s: Objects, title: string, next: string)
    requires Staged(s, title)
    ensures Staged(s[U := NewObject(sha, User(next))], next) && NodesOnly(s[U := NewObject(sha, User(next))])
  {
    hide RevisionHash, Node;
    KeysApart();
  }

  lemma UpdateOne(sha: Sha, w: Working, op: Value, payload: Value, content: Value, prior: string)
    requires ParseOp(op) == Ok(Touched("update", payload)) && KeyOf(payload) == Ok(U) && GetStr(payload, "prior") == Some(prior)
    requires Remove(payload, "prior") == content && ValidateNode(REG, content).Ok?
    requires U in w.objects && !w.objects[U].deleted && w.objects[U].rev == prior
    ensures ApplyOp(sha, REG, w, op) == Ok(Working(w.objects[U := NewObject(sha, content)], w.created, w.touched + [Touched("update", payload)]))
  {
    assert "update"[0] != "create"[0];
    hide ParseOp, KeyOf, ValidateNode, NewObject, Remove, GetStr, Create;
  }

  /** An update of the user that names its revision applies. */
  lemma UpdateApplies(sha: Sha, s: Objects, title: string, cs: Value, next: string)
    requires Staged(s, title) && U in s && CheckHeader(sha, cs) == Ok([Updates(next, s[U].rev)])
    ensures Apply(sha, REG, s, cs) == Ok(s[U := NewObject(sha, User(next))])
    ensures Staged(s[U := NewObject(sha, User(next))], next)
  {
    hide CheckHeader, ValidateNode, KeyOf, RevisionHash, Node, ApplyOp, ApplyOps, Finish, Remove, ParseOp, GetStr, Updates, UpdatePayload;
    UpdateReads(next, s[U].rev);
    PeopleValid("", next);
    StagedUpdate(sha, s, title, next);
    StageTypes(s, title, U);
    hide Staged;
    var w := Working(s, [], []);
    UpdateOne(sha, w, Updates(next, s[U].rev), UpdatePayload(next, s[U].rev), User(next), s[U].rev);
    OneOp(sha, REG, w, Updates(next, s[U].rev));
    Schema();
    Finishes(REG, ApplyOp(sha, REG, w, Updates(next, s[U].rev)).value);
  }

  // ---------------------------------------------------------------- genesis

  const GENESIS_OPS := [Creates(TYPE_NODE), Creates(POLICY_NODE), Creates(User("old"))]

  function Schemas(sha: Sha): Objects {
    map[A := NewObject(sha, TYPE_NODE), B := NewObject(sha, POLICY_NODE)]
  }

  function Founded(sha: Sha): Objects {
    Schemas(sha)[U := NewObject(sha, User("old"))]
  }

  lemma FoundedIsStaged(sha: Sha)
    ensures Staged(Founded(sha), "old") && NodesOnly(Founded(sha))
    ensures U in Founded(sha) && Founded(sha)[U].rev == RevisionHash(sha, User("old"))
    ensures forall k :: k in Schemas(sha) ==> k in Founded(sha) && Founded(sha)[k] == Schemas(sha)[k]
    ensures A in Schemas(sha)
  {
    hide RevisionHash, Node;
    KeysApart();
  }

  lemma VisitAlike(parse: Parser, s: Objects, sub: Objects, k: Key, g: Gathered)
    requires k in s && k in sub && sub[k] == s[k]
    ensures Visit(parse, sub, k, g) == Visit(parse, s, k, g)
  {
    hide Record;
  }

  lemma {:induction false} GatherAlike(parse: Parser, s: Objects, sub: Objects, keys: seq<Key>, g: Gathered)
    requires forall k :: k in keys ==> k in s && k in sub && sub[k] == s[k]
    ensures Gather(parse, sub, keys, g) == Gather(parse, s, keys, g)
  {
    hide Visit;
    if keys == [] {
    } else {
      assert keys == [keys[0]] + keys[1..];
      VisitAlike(parse, s, sub, keys[0], g);
      var step := Visit(parse, s, keys[0], g);
      if step.Ok? {
        GatherAlike(parse, s, sub, keys[1..], step.value);
      }
    }
  }

  lemma SchemasRegistry(env: Env)
    requires env.parse("D") == Some(USER_DEF)
    ensures FromState(env.parse, Schemas(env.sha)) == Ok(REG)
  {
    hide Gather, Assemble, Typed, Schemas, Founded, Staged;
    FoundedIsStaged(env.sha);
    var keys := InOrder(Schemas(env.sha).Keys);
    StageGathers(env.parse, Founded(env.sha), "old", keys, NOTHING);
    GatherAlike(env.parse, Founded(env.sha), Schemas(env.sha), keys, NOTHING);
    Assembled();
  }

  lemma StepSpeculates(env: Env, s: Objects, payload: Value, id: string, t: string, rest: seq<Value>)
    requires GetStr(payload, "type") == Some(t) && GetStr(payload, "kind") == Some("node") && GetStr(payload, "id") == Some(id)
    requires IsMetaType(t) ==> ResolveType(META_REGISTRY, t, None).Some?
    ensures Speculate(env, s, [Creates(payload)] + rest)
         == Speculate(env, if IsMetaType(t) then s[("node", id) := NewObject(env.sha, payload)] else s, rest)
  {
    hide ResolveType, NewObject, IsMetaType, GetStr, SpeculateOp, Speculate;
    CreateSpeculates(env, s, payload, id);
    OneSpeculates(env, s, Creates(payload));
    SpeculateAppend(env, s, [Creates(payload)], rest);
  }

  lemma GenesisSpeculates(env: Env)
    ensures Speculate(env, map[], GENESIS_OPS) == Schemas(env.sha)
  {
    hide Speculate, SpeculateOp, Node, NewObject, GetStr, KeyOf, IsMetaType, ResolveType, Creates;
    TypesRead();
    MetaTypesResolve(META_REGISTRY);
    NodeReads("a", "meta/EntityType", Map(TYPE_FIELDS));
    NodeReads("b", "meta/Policy", Map(POLICY_FIELDS));
    NodeReads("u", "core/User", Map(UserFields("old")));
    var none: Objects := map[];
    var one := none[A := NewObject(env.sha, TYPE_NODE)];
    var last := [Creates(User("old"))];
    assert GENESIS_OPS == [Creates(TYPE_NODE)] + ([Creates(POLICY_NODE)] + last);
    StepSpeculates(env, none, TYPE_NODE, "a", "meta/EntityType", [Creates(POLICY_NODE)] + last);
    StepSpeculates(env, one, POLICY_NODE, "b", "meta/Policy", last);
    assert one[B := NewObject(env.sha, POLICY_NODE)] == Schemas(env.sha);
    CreateSpeculates(env, Schemas(env.sha), User("old"), "u");
    OneSpeculates(env, Schemas(env.sha), Creates(User("old")));
  }

  lemma GenesisTouches(cs: Value)
    requires OpsOf(cs) == GENESIS_OPS
    ensures TouchesMeta(map[], cs)
  {
    hide IsMetaType, Bare, ParseOp, Node, GetStr;
    TypesRead();
    NodeReads("a", "meta/EntityType", Map(TYPE_FIELDS));
    ParsesSingle("create", TYPE_NODE);
    assert GENESIS_OPS[0] == Creates(TYPE_NODE);
    assert OpTouchesMeta(map[], Creates(TYPE_NODE));
    assert Creates(TYPE_NODE) in OpsOf(cs);
  }

  lemma GenesisOps(sha: Sha)
    ensures ApplyOps(sha, REG, Working(map[], [], []), GENESIS_OPS).Ok?
    ensures ApplyOps(sha, REG, Working(map[], [], []), GENESIS_OPS).value.objects == Founded(sha)
  {
    hide ApplyOp, Node, NewObject, KeyOf, ValidateNode, Creates, GetStr, AttributesOf;
    KeysApart();
    SchemaValid();
    PeopleValid("", "old");
    NodeReads("a", "meta/EntityType", Map(TYPE_FIELDS));
    NodeReads("b", "meta/Policy", Map(POLICY_FIELDS));
    NodeReads("u", "core/User", Map(UserFields("old")));
    var none: Objects := map[];
    var w0 := Working(none, [], []);
    CreateOne(sha, REG, w0, "a", TYPE_NODE);
    var w1 := ApplyOp(sha, REG, w0, Creates(TYPE_NODE)).value;
    CreateOne(sha, REG, w1, "b", POLICY_NODE);
    var w2 := ApplyOp(sha, REG, w1, Creates(POLICY_NODE)).value;
    assert w2.objects == Schemas(sha);
    CreateOne(sha, REG, w2, "u", User("old"));
    ThreeOps(sha, w0, Creates(TYPE_NODE), Creates(POLICY_NODE), Creates(User("old")));
  }

  lemma ThreeOps(sha: Sha, w: Working, a: Value, b: Value, c: Value)
    requires ApplyOp(sha, REG, w, a).Ok? && ApplyOp(sha, REG, ApplyOp(sha, REG, w, a).value, b).Ok?
    ensures ApplyOps(sha, REG, w, [a, b, c]) == ApplyOp(sha, REG, ApplyOp(sha, REG, ApplyOp(sha, REG, w, a).value, b).value, c)
  {
    hide ApplyOp;
    assert [a, b, c][1..] == [b, c] && [b, c][1..] == [c];
    OneOp(sha, REG, ApplyOp(sha, REG, ApplyOp(sha, REG, w, a).value, b).value, c);
  }

  /** Genesis is read under the schema it installs, and founds the stage. */
  lemma GenesisApplies(env: Env, cs: Value)
    requires env.parse("D") == Some(USER_DEF) && CheckHeader(env.sha, cs) == Ok(GENESIS_OPS) && OpsOf(cs) == GENESIS_OPS
    ensures TouchesMeta(map[], cs) && RegistryFor(env, map[], true, cs) == Ok(REG)
    ensures Apply(env.sha, REG, map[], cs) == Ok(Founded(env.sha))
  {
    hide CheckHeader, FromState, Speculate, TouchesMeta, ApplyOps, Finish, Founded, Schemas, Creates;
    GenesisTouches(cs);
    GenesisSpeculates(env);
    SchemasRegistry(env);
    GenesisOps(env.sha);
    FoundedIsStaged(env.sha);
    Schema();
    Finishes(REG, ApplyOps(env.sha, REG, Working(map[], [], []), GENESIS_OPS).value);
  }

  // ---------------------------------------------------------------- what the policy asks

  lemma DocReads()
    ensures GetSeq(DOC, "rules") == Some([RULE]) && !IsRestricted(DOC) && Bindings(DOC, "owner") == ["principal:u"]
  {
    assert "open"[0] != "restricted"[0];
    assert "default_posture"[0] != "rules"[0] && "roles"[1] != "rules"[1] && "default_posture"[0] != "roles"[0];
  }

  lemma RuleReads()
    ensures IsRule(RULE) && Get(RULE, "select") == Some(SELECT) && Get(RULE, "require") == Some(REQUIRE) && GetStr(RULE, "name") == Some("updates")
  {
    assert "name"[0] != "select"[0] && "name"[0] != "require"[0] && "select"[0] != "require"[0];
  }

  lemma SelectFields()
    ensures forall k :: Get(SELECT, k).Some? <==> k == "operation"
    ensures Get(SELECT, "operation") == Some(Str("update")) && OneOrMany(Str("update")) == ["update"]
    ensures "all" != "operation" && "any" != "operation" && "not" != "operation"
  {
    assert "all"[0] != "operation"[0] && "any"[0] != "operation"[0] && "not"[0] != "operation"[0];
  }

  lemma KeysRead(kind: string, ctx: OpContext, sel: Value, operation: Value)
    requires forall k :: Get(sel, k).Some? <==> k == "operation"
    requires Get(sel, "operation") == Some(operation)
    ensures KeysMatch(REG, sel, kind, ctx) <==> OperationMatches(operation, ctx)
  {
    hide OperationMatches, TypeSatisfies, WhereMatches;
    assert "author_kind" != "operation" && "basis" != "operation" && "region" != "operation" && "type" != "operation" && "imported" != "operation"
           && "where" != "operation" && "substrate" != "operation";
  }

  lemma SelectReads(kind: string, ctx: OpContext)
    ensures SelectorMatches(REG, SELECT, kind, ctx) <==> ctx.verb == "update" || "update" in ctx.sugar
  {
    hide KeysMatch, Get, OneOrMany;
    SelectFields();
    KeysRead(kind, ctx, SELECT, Str("update"));
  }

  lemma RequireReads()
    ensures forall r :: AsksReviewers(REQUIRE, r) <==> r == ("owner", 1)
    ensures AskedClass(REQUIRE) == None
  {
    assert "attestation_required"[0] != "reviewers"[0];
    var entry := Map(map["role" := Str("owner")]);
    assert "quorum"[0] != "role"[0];
    assert ReviewerEntries(REQUIRE) == [entry] && ReviewersIn(entry) == Some(("owner", 1));
    hide ReviewerEntries, ReviewersIn;
    forall r ensures AsksReviewers(REQUIRE, r) <==> r == ("owner", 1) {
      assert entry in ReviewerEntries(REQUIRE);
    }
  }

  lemma RuleAsks(kind: string, ctx: OpContext)
    ensures RuleMatches(REG, RULE, kind, ctx) <==> ctx.verb == "update" || "update" in ctx.sugar
  {
    hide SelectorMatches, Get, GetStr;
    RuleReads();
    SelectReads(kind, ctx);
  }

  lemma OneContext(s: Objects, cs: Value, op: Value, t: Touched)
    requires GetSeq(cs, "operations") == Some([op]) && ParseOp(op) == Ok(t)
    requires GetStr(t.payload, "type") == Some("core/User") && t.verb != "delete"
    ensures OpContexts(REG, s, cs).Ok? && |OpContexts(REG, s, cs).value| == 1
    ensures OpContexts(REG, s, cs).value[0].verb == t.verb && OpContexts(REG, s, cs).value[0].sugar == []
  {
    hide ParseOp, GetStr, RegionsOf, PlacingTerms, CreatedClassifications, IsMetaType, Bare;
    TypesRead();
    assert [op][0] == op && [op][1..] == [];
    assert ContextsOf(REG, s, CreatedClassifications([op]), []) == Ok([]);
    hide Provenance, BasisOf, IsImported;
    assert SugarOf(s, t) == [];
  }

  const FREE := NO_REQUIREMENTS

  const REVIEWED := Checklist({"updates"}, [("owner", 1)], [], false)

  /** An operation that is no update asks for nothing. */
  lemma FreeUnion(kind: string, ctx: OpContext)
    requires ctx.verb != "update" && ctx.sugar == []
    ensures IsUnion(REG, [RULE], kind, [ctx], false, FREE)
  {
    hide RuleMatches;
    RuleAsks(kind, ctx);
    assert forall rule :: !Matched(REG, [RULE], kind, [ctx], rule);
  }

  /** An update asks for one owner. */
  lemma ReviewedUnion(kind: string, ctx: OpContext)
    requires ctx.verb == "update"
    ensures IsUnion(REG, [RULE], kind, [ctx], false, REVIEWED)
  {
    hide RuleMatches, AsksReviewers, AskedClass, Get, GetStr;
    RuleAsks(kind, ctx);
    RuleReads();
    RequireReads();
    assert [ctx][0] == ctx;
    assert forall rule :: Matched(REG, [RULE], kind, [ctx], rule) <==> rule == RULE;
    hide Matched, Unmatched;
  }

  /** With one union at hand, whether the policy is content is whether that union is satisfied. */
  lemma GovernedBy(set0: Setting, tip: Tip, cs: Value, author: string, e: Evidence, list: Checklist)
    requires AuthorKind(tip.state, author).Ok? && OpContexts(tip.reg, tip.state, cs).Ok? && GetSeq(tip.policy, "rules").Some?
    requires ChangesetHash(set0.trust.sha, cs).Ok? && IsUnionAt(set0, tip, cs, author, list)
    ensures Governed(set0, tip, cs, author, e) <==>
            Satisfied(set0.trust, tip.state, tip.policy, SubmissionOf(set0, cs, author, e), ChangesetHash(set0.trust.sha, cs).value.0, list)
    ensures WellFormed(set0.trust, tip.policy, ChangesetHash(set0.trust.sha, cs).value.0, e.decisions) || list.reviewers == [] ==>
              Evaluable(set0, tip, cs, author, e)
  {
    hide IsUnion, Satisfied, OpContexts, AuthorKind, ChangesetHash, WellFormed, IsRestricted, SameAsked;
    var sub, h := SubmissionOf(set0, cs, author, e), ChangesetHash(set0.trust.sha, cs).value.0;
    forall other | IsUnionAt(set0, tip, cs, author, other)
      ensures Satisfied(set0.trust, tip.state, tip.policy, sub, h, other) <==> Satisfied(set0.trust, tip.state, tip.policy, sub, h, list)
    {
      SameUnion(tip.reg, GetSeq(tip.policy, "rules").value, AuthorKind(tip.state, author).value, OpContexts(tip.reg, tip.state, cs).value,
                IsRestricted(tip.policy), list, other);
      SameSatisfied(set0.trust, tip.state, tip.policy, sub, h, list, other);
    }
  }

  /** A one-operation changeset on people, as admission sees it. */
  ghost predicate Proposes(sha: Sha, cs: Value, op: Value, t: Touched) {
    && GetSeq(cs, "operations") == Some([op]) && ParseOp(op) == Ok(t)
    && GetStr(t.payload, "type") == Some("core/User") && t.verb != "delete" && ChangesetHash(sha, cs).Ok?
  }

  lemma UnionAt(set0: Setting, s: Objects, title: string, cs: Value, op: Value, t: Touched, list: Checklist)
    requires Staged(s, title) && Proposes(set0.trust.sha, cs, op, t)
    requires t.verb == "update" ==> list == REVIEWED
    requires t.verb != "update" ==> list == FREE
    ensures AuthorKind(s, "principal:u").Ok? && OpContexts(REG, s, cs).Ok? && GetSeq(DOC, "rules").Some?
    ensures IsUnionAt(set0, Tip(s, REG, DOC), cs, "principal:u", list)
  {
    hide IsUnion, OpContexts, AuthorKind, ChangesetHash, IsRestricted, GetSeq, GetStr, ParseOp, Staged;
    StageUser(s, title);
    DocReads();
    OneContext(s, cs, op, t);
    var ctxs := OpContexts(REG, s, cs).value;
    assert ctxs == [ctxs[0]];
    if t.verb == "update" {
      ReviewedUnion("user", ctxs[0]);
    } else {
      FreeUnion("user", ctxs[0]);
    }
  }

  /** Anything but an update is admitted, whatever the evidence. */
  lemma FreelyGoverned(set0: Setting, s: Objects, title: string, cs: Value, op: Value, t: Touched, e: Evidence)
    requires Staged(s, title) && Proposes(set0.trust.sha, cs, op, t) && t.verb != "update"
    ensures Evaluable(set0, Tip(s, REG, DOC), cs, "principal:u", e) && Governed(set0, Tip(s, REG, DOC), cs, "principal:u", e)
  {
    hide IsUnionAt, OpContexts, AuthorKind, ChangesetHash, WellFormed, Staged, Proposes, Governed, Evaluable;
    UnionAt(set0, s, title, cs, op, t, FREE);
    assert ChangesetHash(set0.trust.sha, cs).Ok? by {
      ProposesHash(set0.trust.sha, cs, op, t);
    }
    GovernedBy(set0, Tip(s, REG, DOC), cs, "principal:u", e, FREE);
  }

  lemma ProposesHash(sha: Sha, cs: Value, op: Value, t: Touched)
    requires Proposes(sha, cs, op, t)
    ensures ChangesetHash(sha, cs).Ok?
  {
  }

  /** An update is admitted exactly when an owner has approved it. */
  lemma ReviewedGoverned(set0: Setting, s: Objects, title: string, cs: Value, op: Value, t: Touched, e: Evidence)
    requires Staged(s, title) && Proposes(set0.trust.sha, cs, op, t) && t.verb == "update"
    requires ChangesetHash(set0.trust.sha, cs).Ok? && WellFormed(set0.trust, DOC, ChangesetHash(set0.trust.sha, cs).value.0, e.decisions)
    ensures Evaluable(set0, Tip(s, REG, DOC), cs, "principal:u", e)
    ensures Governed(set0, Tip(s, REG, DOC), cs, "principal:u", e) <==>
            QuorumMet(set0.trust, s, DOC, ChangesetHash(set0.trust.sha, cs).value.0, e.decisions, ("owner", 1))
  {
    hide IsUnionAt, OpContexts, AuthorKind, ChangesetHash, WellFormed, Staged, Proposes, Governed, Evaluable, QuorumMet;
    UnionAt(set0, s, title, cs, op, t, REVIEWED);
    GovernedBy(set0, Tip(s, REG, DOC), cs, "principal:u", e, REVIEWED);
    assert REVIEWED.reviewers[0] == ("owner", 1);
  }

  // ---------------------------------------------------------------- the owner's decision

  function Fields(subject: string, pctx: string): map<string, Value> {
    map["subject" := Str(subject), "policy_context" := Str(pctx), "verdict" := Str("approve"), "timestamp" := Str("t")]
  }

  function SignatureOn(sha: Sha, subject: string, pctx: string): string {
    "sig:ed25519:" + HashValue(sha, "decision", Map(Fields(subject, pctx)))
  }

  function RecordOf(sha: Sha, subject: string, pctx: string): Value {
    Map(Fields(subject, pctx)["kind" := Str("decision-record")]["deciders" := Seq([Decider(SignatureOn(sha, subject, pctx))])])
  }

  function Decider(signature: string): Value {
    Map(map["principal" := Str("principal:u"), "signature" := Str(signature)])
  }

  lemma FieldNames()
    ensures "kind" !in SIGNED_FIELDS && "deciders" !in SIGNED_FIELDS && "kind" != "deciders"
    ensures "subject" != "policy_context" && "subject" != "verdict" && "subject" != "timestamp"
    ensures "policy_context" != "verdict" && "policy_context" != "timestamp" && "verdict" != "timestamp"
    ensures "principal" != "signature"
  {
  }

  lemma RecordReads(sha: Sha, subject: string, pctx: string)
    ensures var r := RecordOf(sha, subject, pctx);
            && Approves(r, subject, pctx) && Deciders(r) == [Decider(SignatureOn(sha, subject, pctx))]
            && GetStr(r, "kind") == Some("decision-record") && GetStr(r, "verdict") == Some("approve") && GetStr(r, "subject") == Some(subject)
            && forall f :: f in SIGNED_FIELDS ==> Get(r, f) == Some(Fields(subject, pctx)[f])
  {
    FieldNames();
    hide HashValue, Decider;
  }

  lemma PayloadOf(sha: Sha, subject: string, pctx: string)
    ensures DecisionPayload(sha, RecordOf(sha, subject, pctx)) == Ok(HashValue(sha, "decision", Map(Fields(subject, pctx))))
  {
    RecordReads(sha, subject, pctx);
    var r := RecordOf(sha, subject, pctx);
    hide RecordOf, HashValue, Approves, Deciders;
    assert Fields(subject, pctx).Keys == SIGNED_FIELDS;
    assert (map f | f in SIGNED_FIELDS :: Get(r, f).GetOr(Null)) == Fields(subject, pctx);
  }

  lemma DeciderReads(signature: string)
    ensures GetStr(Decider(signature), "principal") == Some("principal:u") && GetStr(Decider(signature), "signature") == Some(signature)
    ensures GetStr(KEY, "status") == Some("active") && GetStr(KEY, "public") == Some("k")
  {
    FieldNames();
    assert "status"[0] != "public"[0];
  }

  lemma OwnerSigns(set0: Setting, s: Objects, title: string, subject: string)
    requires Given(set0) && Staged(s, title)
    ensures var pctx := PolicyContext(set0.trust.sha, DOC);
            && QuorumMet(set0.trust, s, DOC, subject, [RecordOf(set0.trust.sha, subject, pctx)], ("owner", 1))
            && WellFormed(set0.trust, DOC, subject, [RecordOf(set0.trust.sha, subject, pctx)])
  {
    hide PolicyContext, Staged, RecordOf, Approves, DecisionPayload, HashValue, Bindings, FindPrincipal, KeyRecords, GetStr, Deciders;
    var pctx := PolicyContext(set0.trust.sha, DOC);
    var r := RecordOf(set0.trust.sha, subject, pctx);
    var payload, signature := HashValue(set0.trust.sha, "decision", Map(Fields(subject, pctx))), SignatureOn(set0.trust.sha, subject, pctx);
    StageUser(s, title);
    DocReads();
    RecordReads(set0.trust.sha, subject, pctx);
    PayloadOf(set0.trust.sha, subject, pctx);
    DeciderReads(signature);
    assert SignedBy(set0.trust.verify, s, "principal:u", payload, signature, true) by {
      assert KEY in KeyRecords(s[U]) && KeyVerifies(set0.trust.verify, KEY, payload, signature, true);
    }
    hide SignedBy;
    assert Decider(signature) in Deciders(r);
    assert ApprovedIn(set0.trust, s, ["principal:u"], r, "principal:u");
    hide ApprovedIn;
    assert r in [r];
    var approvers := Approvers(set0.trust, s, ["principal:u"], subject, pctx, [r]);
    assert "principal:u" in approvers;
    assert |approvers - {"principal:u"}| < |approvers|;
  }

  lemma NobodySigns(set0: Setting, s: Objects, subject: string)
    ensures !QuorumMet(set0.trust, s, DOC, subject, [], ("owner", 1)) && WellFormed(set0.trust, DOC, subject, [])
  {
    hide PolicyContext, Bindings, Approves, ApprovedIn;
    assert Approvers(set0.trust, s, Bindings(DOC, "owner"), subject, PolicyContext(set0.trust.sha, DOC), []) == {};
  }

  // ---------------------------------------------------------------- the documents

  function Unsigned(head: Option<string>, ops: seq<Value>): map<string, Value> {
    Body(head, "u", "k", "t", "i", "s", ops)
  }

  /** The hash a changeset is filed under. */
  function NameOf(sha: Sha, head: Option<string>, ops: seq<Value>): string {
    match ChangesetHash(sha, Map(Unsigned(head, ops))) case Ok(h) => h.0 case Err(_) => ""
  }

  function Document(sha: Sha, head: Option<string>, ops: seq<Value>): Value {
    Signed(Unsigned(head, ops), NameOf(sha, head, ops), "sig")
  }

  lemma DocumentReads(sha: Sha, head: Option<string>, ops: seq<Value>)
    requires ops != []
    ensures var d := Document(sha, head, ops);
            && CheckHeader(sha, d) == Ok(ops) && FirstParent(d) == head
            && ChangesetHash(sha, d).Ok? && ChangesetHash(sha, d).value.0 == NameOf(sha, head, ops)
            && GetSeq(d, "operations") == Some(ops) && OpsOf(d) == ops && AuthorOf(d) == Some("principal:u")
  {
    BuiltChangeset(sha, head, "u", "k", "t", "i", "s", ops, "sig");
    HashSurvivesSigning(sha, Unsigned(head, ops), NameOf(sha, head, ops), "sig");
    DocumentFields(head, ops, NameOf(sha, head, ops));
    hide Body, Signed, ChangesetHash, CheckHeader, FirstParent, AuthorOf, GetSeq;
  }

  lemma DocumentFields(head: Option<string>, ops: seq<Value>, name: string)
    ensures var d := Signed(Unsigned(head, ops), name, "sig");
            GetSeq(d, "operations") == Some(ops) && AuthorOf(d) == Some("principal:u")
  {
    BodyFields(head, "u", "k", "t", "i", "s", ops);
    assert "hash"[0] != "operations"[0] && "signature"[0] != "operations"[0] && "hash"[0] != "author"[0] && "signature"[0] != "author"[0];
    assert "principal:" + "u" == "principal:u";
    AuthorReads(head, ops);
    hide Body;
    var d := Signed(Unsigned(head, ops), name, "sig");
    assert Get(d, "operations") == Get(Map(Unsigned(head, ops)), "operations") && Get(d, "author") == Get(Map(Unsigned(head, ops)), "author");
  }

  lemma AuthorReads(head: Option<string>, ops: seq<Value>)
    ensures Get(Map(Unsigned(head, ops)), "author") == Some(Map(map["principal" := Str("principal:" + "u"), "key" := Str("k")]))
    ensures GetStr(Map(map["principal" := Str("principal:" + "u"), "key" := Str("k")]), "principal") == Some("principal:" + "u")
  {
    assert "principal"[0] != "key"[0];
  }

  // ---------------------------------------------------------------- the run


  function GenesisName(sha: Sha): string {
    NameOf(sha, None, GENESIS_OPS)
  }

  function Genesis(sha: Sha): Value {
    Document(sha, None, GENESIS_OPS)
  }

  /** What a member adds to the graph: a visitor, built on the document `parent` names. */
  function Arrival(sha: Sha, parent: Option<string>, id: string): Value {
    Document(sha, parent, [Creates(Visitor(id))])
  }

  function ArrivalName(sha: Sha, parent: Option<string>, id: string): string {
    NameOf(sha, parent, [Creates(Visitor(id))])
  }

  /** A new title for the user, built on genesis. */
  function TitleOps(sha: Sha): seq<Value> {
    [Updates("new", RevisionHash(sha, User("old")))]
  }

  function Proposal(sha: Sha): Value {
    Document(sha, Some(GenesisName(sha)), TitleOps(sha))
  }

  function ProposalName(sha: Sha): string {
    NameOf(sha, Some(GenesisName(sha)), TitleOps(sha))
  }

  function Titled(sha: Sha): Objects {
    Founded(sha)[U := NewObject(sha, User("new"))]
  }

  function Visited(sha: Sha, s: Objects, id: string): Objects {
    s[("node", id) := NewObject(sha, Visitor(id))]
  }

  lemma TitleReads(sha: Sha)
    ensures var op := Updates("new", RevisionHash(sha, User("old")));
            var t := Touched("update", UpdatePayload("new", RevisionHash(sha, User("old"))));
            Proposes(sha, Proposal(sha), op, t)
  {
    UpdateReads("new", RevisionHash(sha, User("old")));
    hide ChangesetHash, UpdatePayload, Updates, ParseOp, GetStr, Document, RevisionHash, User;
    DocumentReads(sha, Some(GenesisName(sha)), TitleOps(sha));
    assert "update"[0] != "delete"[0];
  }

  lemma ArrivalReads(sha: Sha, parent: Option<string>, id: string)
    ensures Proposes(sha, Arrival(sha, parent, id), Creates(Visitor(id)), Touched("create", Visitor(id)))
  {
    NodeReads(id, "core/User", Map(VISITOR_FIELDS));
    hide ChangesetHash, ParseOp, GetStr, Document, Node;
    ParsesSingle("create", Visitor(id));
    DocumentReads(sha, parent, [Creates(Visitor(id))]);
    assert "create"[0] != "delete"[0];
  }

  /** The log with genesis alone. */
  function FirstLog(sha: Sha): map<string, Value> {
    map[Short(GenesisName(sha)) := Genesis(sha)]
  }

  lemma Founding(set0: Setting)
    requires Given(set0)
    ensures var sha := set0.env.sha;
            var log, head := FirstLog(sha), Some(GenesisName(sha));
            && Ends(log, head) && ChainOf(log, head) == Ok([Genesis(sha)])
            && Folded(set0.env, log, head, None) == Ok(Founded(sha))
            && GuardedRun(set0.env, map[], true, [Genesis(sha)])
  {
    hide ChangesetHash, CheckHeader, Document, Short, Founded, Apply, FromState, TouchesMeta, Speculate, NameOf, Given;
    GivenReads(set0);
    var env, sha := set0.env, set0.env.sha;
    var none: map<string, Value> := map[];
    DocumentReads(sha, None, GENESIS_OPS);
    GenesisApplies(env, Genesis(sha));
    AppendExtendsChain(none, None, Genesis(sha), GenesisName(sha));
    assert none[Short(GenesisName(sha)) := Genesis(sha)] == FirstLog(sha);
    assert [] + [Genesis(sha)] == [Genesis(sha)];
    AloneFolds(env, Genesis(sha));
  }

  lemma GivenReads(set0: Setting)
    requires Given(set0)
    ensures set0.env.sha == set0.trust.sha && set0.env.parse("D") == Some(USER_DEF) && set0.env.parse("P") == Some(DOC)
  {
  }

  lemma AloneFolds(env: Env, cs: Value)
    requires TouchesMeta(map[], cs) && RegistryFor(env, map[], true, cs) == Ok(REG)
    requires Apply(env.sha, REG, map[], cs) == Ok(Founded(env.sha))
    ensures CachedUpTo(env, map[], true, None, [cs], None) == Ok(Founded(env.sha))
    ensures GuardedRun(env, map[], true, [cs])
  {
    hide Apply, TouchesMeta, RegistryFor, Founded;
    assert [cs][0] == cs && [cs][1..] == [];
    assert CachedUpTo(env, Founded(env.sha), false, None, [], None) == Ok(Founded(env.sha));
    assert GuardedRun(env, Founded(env.sha), false, []);
  }

  lemma StagedTip(set0: Setting, log: map<string, Value>, head: Option<string>, s: Objects, title: string)
    requires Given(set0) && Staged(s, title) && Ends(log, head) && Folded(set0.env, log, head, None) == Ok(s)
    ensures IsTip(set0, log, head, Tip(s, REG, DOC))
  {
    hide Folded, Staged, FromState, PolicyOf, Given;
    GivenReads(set0);
    StageRegistry(set0.env.parse, s, title);
    StagePolicy(set0.env.parse, s, title);
  }

  lemma NotStuck(set0: Setting, log: map<string, Value>, head: Option<string>, tip: Tip, cs: Value, author: string, e: Evidence)
    requires Ends(log, head) && IsTip(set0, log, head, tip) && Evaluable(set0, tip, cs, author, e)
    requires Governed(set0, tip, cs, author, e) ==> Apply(set0.env.sha, tip.reg, tip.state, cs).Ok?
    ensures !Stuck(set0, log, head, cs, author, e)
  {
    hide IsTip, Evaluable, Governed, Apply;
  }

  lemma ArrivalGoverned(set0: Setting, log: map<string, Value>, head: Option<string>, s: Objects, title: string, parent: Option<string>, id: string)
    requires Given(set0) && Staged(s, title) && Ends(log, head) && Folded(set0.env, log, head, None) == Ok(s)
    requires ("node", id) !in s
    ensures var cs, tip := Arrival(set0.env.sha, parent, id), Tip(s, REG, DOC);
            && IsTip(set0, log, head, tip) && Governed(set0, tip, cs, "principal:u", Evidence([], []))
            && !Stuck(set0, log, head, cs, "principal:u", Evidence([], []))
            && Apply(set0.env.sha, REG, s, cs) == Ok(Visited(set0.env.sha, s, id))
    ensures Staged(Visited(set0.env.sha, s, id), title)
  {
    hide Folded, Staged, Governed, Evaluable, Stuck, Apply, Given, IsTip, Document, NameOf, Creates, Proposes, CheckHeader, ChangesetHash;
    GivenReads(set0);
    var sha, tip := set0.env.sha, Tip(s, REG, DOC);
    var cs := Arrival(sha, parent, id);
    StagedTip(set0, log, head, s, title);
    ArrivalReads(sha, parent, id);
    DocumentReads(sha, parent, [Creates(Visitor(id))]);
    VisitorApplies(sha, s, title, cs, id);
    FreelyGoverned(set0, s, title, cs, Creates(Visitor(id)), Touched("create", Visitor(id)), Evidence([], []));
    NotStuck(set0, log, head, tip, cs, "principal:u", Evidence([], []));
  }

  /** On any stage, a visitor's arrival is admitted, whatever document it was built on. */
  method Arrive(set0: Setting, g: Graph, ghost s: Objects, ghost title: string, parent: Option<string>, id: string) returns (r: Result<Outcome>)
    requires Given(set0) && Staged(s, title) && Ends(g.log, g.head) && Folded(set0.env, g.log, g.head, None) == Ok(s)
    requires ("node", id) !in s
    modifies g
    ensures r == Ok(Admitted) && Staged(Visited(set0.env.sha, s, id), title)
    ensures IsTip(set0, old(g.log), old(g.head), Tip(s, REG, DOC))
    ensures Accepts(set0, Tip(s, REG, DOC), Arrival(set0.env.sha, parent, id), ArrivalName(set0.env.sha, parent, id),
                    old(g.log), g.log, g.head, Visited(set0.env.sha, s, id))
    ensures g.proposals == old(g.proposals) && g.pending == old(g.pending)
  {
    hide *;
    ghost var log, head := g.log, g.head;
    ArrivalGoverned(set0, log, head, s, title, parent, id);
    assert "principal:" + "u" == "principal:u";
    ghost var tip, after;
    r, tip, after := AdmitOrHold(set0, g, "u", Arrival(set0.env.sha, parent, id), ArrivalName(set0.env.sha, parent, id), []);
    SameTipRead(set0, log, head, tip, Tip(s, REG, DOC), r);
    Outcomes(r);
    if r == Ok(Admitted) {
      AcceptedIs(set0, tip, Arrival(set0.env.sha, parent, id), ArrivalName(set0.env.sha, parent, id), log, g.log, g.head, after, Visited(set0.env.sha, s, id));
    }
  }

  lemma Outcomes(r: Result<Outcome>)
    ensures r.Err? || r == Ok(Admitted) || r == Ok(Held) || r == Ok(Rejected)
  {
    if r.Ok? {
      match r.value {
        case Admitted =>
        case Held =>
        case Rejected =>
      }
    }
  }

  lemma SameTipRead(set0: Setting, log: map<string, Value>, head: Option<string>, tip: Tip, other: Tip, r: Result<Outcome>)
    requires IsTip(set0, log, head, other) && (r.Ok? ==> IsTip(set0, log, head, tip))
    ensures r.Ok? ==> tip == other
  {
    hide IsTip;
    if r.Ok? {
      OneTip(set0, log, head, tip, other);
    }
  }

  lemma AcceptedIs(set0: Setting, tip: Tip, cs: Value, hash: string, log: map<string, Value>, log': map<string, Value>, head': Option<string>,
                   after: Objects, expected: Objects)
    requires Accepts(set0, tip, cs, hash, log, log', head', after) && Apply(set0.env.sha, tip.reg, tip.state, cs) == Ok(expected)
    ensures after == expected
  {
    hide Apply;
  }

  lemma ProposalHeld(set0: Setting, log: map<string, Value>, head: Option<string>)
    requires Given(set0) && Ends(log, head) && Folded(set0.env, log, head, None) == Ok(Founded(set0.env.sha))
    ensures var cs, tip := Proposal(set0.env.sha), Tip(Founded(set0.env.sha), REG, DOC);
            && IsTip(set0, log, head, tip) && !Governed(set0, tip, cs, "principal:u", Evidence([], []))
            && !Stuck(set0, log, head, cs, "principal:u", Evidence([], []))
  {
    hide Folded, Staged, Governed, Evaluable, Stuck, Given, IsTip, Document, NameOf, Proposes, CheckHeader, ChangesetHash, Founded, TitleOps, Updates,
         UpdatePayload, QuorumMet, WellFormed, User, RevisionHash;
    GivenReads(set0);
    var sha := set0.env.sha;
    var s, tip, cs := Founded(sha), Tip(Founded(sha), REG, DOC), Proposal(sha);
    FoundedIsStaged(sha);
    StagedTip(set0, log, head, s, "old");
    TitleReads(sha);
    var op, t := Updates("new", RevisionHash(sha, User("old"))), Touched("update", UpdatePayload("new", RevisionHash(sha, User("old"))));
    ProposesHash(sha, cs, op, t);
    NobodySigns(set0, s, ChangesetHash(sha, cs).value.0);
    ReviewedGoverned(set0, s, "old", cs, op, t, Evidence([], []));
    NotStuck(set0, log, head, tip, cs, "principal:u", Evidence([], []));
  }

  function Approval(sha: Sha): Value {
    RecordOf(sha, ProposalName(sha), PolicyContext(sha, DOC))
  }

  /** On a later stage that has left the user alone, the approved proposal is admitted. */
  lemma ProposalApproved(set0: Setting, log: map<string, Value>, head: Option<string>, s: Objects)
    requires Given(set0) && Ends(log, head) && Folded(set0.env, log, head, None) == Ok(s) && Staged(s, "old")
    requires U in s && s[U].rev == RevisionHash(set0.env.sha, User("old"))
    ensures var cs, tip, e := Proposal(set0.env.sha), Tip(s, REG, DOC), Evidence([Approval(set0.env.sha)], []);
            && IsTip(set0, log, head, tip) && Governed(set0, tip, cs, "principal:u", e)
            && !Stuck(set0, log, head, cs, "principal:u", e)
  {
    hide Folded, Staged, Governed, Evaluable, Stuck, Given, IsTip, Document, Proposes, CheckHeader, ChangesetHash, NameOf, Updates,
         UpdatePayload, QuorumMet, WellFormed, User, RevisionHash, RecordOf, PolicyContext, Apply;
    GivenReads(set0);
    var sha := set0.env.sha;
    var tip, cs, e := Tip(s, REG, DOC), Proposal(sha), Evidence([Approval(sha)], []);
    StagedTip(set0, log, head, s, "old");
    TitleReads(sha);
    DocumentReads(sha, Some(GenesisName(sha)), TitleOps(sha));
    var op, t := Updates("new", RevisionHash(sha, User("old"))), Touched("update", UpdatePayload("new", RevisionHash(sha, User("old"))));
    OwnerSigns(set0, s, "old", ProposalName(sha));
    ReviewedGoverned(set0, s, "old", cs, op, t, e);
    UpdateApplies(sha, s, "old", cs, "new");
    NotStuck(set0, log, head, tip, cs, "principal:u", e);
  }

  lemma SignatureShape(sha: Sha, subject: string, pctx: string)
    ensures "sig:ed25519:" <= SignatureOn(sha, subject, pctx)
    ensures "approve" != "reject"
  {
    hide HashValue;
    assert "approve"[0] != "reject"[0];
  }

  lemma ApprovalShape(sha: Sha)
    ensures RecordShape(Approval(sha), ProposalName(sha)) && GetStr(Approval(sha), "verdict") == Some("approve") && "approve" != "reject"
  {
    hide RecordOf, PolicyContext, SignatureOn, NameOf, GetStr, Deciders, Decider, HashValue, Fields;
    var pctx := PolicyContext(sha, DOC);
    var signature := SignatureOn(sha, ProposalName(sha), pctx);
    SignatureShape(sha, ProposalName(sha), pctx);
    RecordReads(sha, ProposalName(sha), pctx);
    DeciderReads(signature);
    assert Decider(signature) in Deciders(Approval(sha));
  }

  /** The documents have different names. */
  ghost predicate Apart(sha: Sha) {
    var g, p := GenesisName(sha), ProposalName(sha);
    var q, r, o := ArrivalName(sha, Some(g), "q"), ArrivalName(sha, Some(g), "r"), ArrivalName(sha, None, "o");
    Distinct([Short(g), Short(p), Short(q), Short(r), Short(o)])
  }

  lemma ApartReads(sha: Sha)
    requires Apart(sha)
    ensures var g, p := GenesisName(sha), ProposalName(sha);
            var q, r, o := ArrivalName(sha, Some(g), "q"), ArrivalName(sha, Some(g), "r"), ArrivalName(sha, None, "o");
            && Short(p) !in {Short(g), Short(q)} && Short(q) != Short(g) && Short(r) !in {Short(g), Short(q)}
            && Short(o) !in {Short(g), Short(q), Short(r)}
  {
    hide Short, GenesisName, ProposalName, ArrivalName;
    var g, p := GenesisName(sha), ProposalName(sha);
    var q, r, o := ArrivalName(sha, Some(g), "q"), ArrivalName(sha, Some(g), "r"), ArrivalName(sha, None, "o");
    var names := [Short(g), Short(p), Short(q), Short(r), Short(o)];
    assert names[0] == Short(g) && names[1] == Short(p) && names[2] == Short(q) && names[3] == Short(r) && names[4] == Short(o);
    assert names[0] != names[1] && names[0] != names[2] && names[0] != names[3] && names[0] != names[4] && names[1] != names[2];
    assert names[2] != names[3] && names[2] != names[4] && names[3] != names[4];
  }

  /** A log in which genesis is filed under its name reads back to genesis from there. */
  lemma GenesisWalk(set0: Setting, log: map<string, Value>)
    requires Given(set0)
    requires Short(GenesisName(set0.env.sha)) in log && log[Short(GenesisName(set0.env.sha))] == Genesis(set0.env.sha)
    ensures var sha := set0.env.sha;
            var g := Some(GenesisName(sha));
            && Ends(log, g) && ChainOf(log, g) == Ok([Genesis(sha)]) && GuardedRun(set0.env, map[], true, [Genesis(sha)])
            && Folded(set0.env, log, g, None) == Ok(Founded(sha)) && FromState(set0.env.parse, Founded(sha)) == Ok(REG)
  {
    hide ChangesetHash, CheckHeader, Document, Short, Founded, Apply, FromState, TouchesMeta, Speculate, NameOf, Given, FirstParent, GuardedRun, CachedUpTo, Staged;
    var env, sha := set0.env, set0.env.sha;
    var first := FirstLog(sha);
    Founding(set0);
    DocumentReads(sha, None, GENESIS_OPS);
    assert Walk(log, GenesisName(sha), 1) == Some(Ok([Genesis(sha)]));
    ChainIsWalk(log, GenesisName(sha), 1);
    GivenReads(set0);
    FoundedIsStaged(sha);
    StageRegistry(env.parse, Founded(sha), "old");
  }

  /** An admission on top of genesis folds to the founded state with the visitor. */
  lemma AfterArrival(set0: Setting, id: string, log': map<string, Value>, head': Option<string>)
    requires Given(set0) && Short(ArrivalName(set0.env.sha, Some(GenesisName(set0.env.sha)), id)) != Short(GenesisName(set0.env.sha))
    requires var sha := set0.env.sha;
             var g := Some(GenesisName(sha));
             && IsTip(set0, FirstLog(sha), g, Tip(Founded(sha), REG, DOC))
             && Accepts(set0, Tip(Founded(sha), REG, DOC), Arrival(sha, g, id), ArrivalName(sha, g, id), FirstLog(sha), log', head', Visited(sha, Founded(sha), id))
    ensures Ends(log', head') && Folded(set0.env, log', head', None) == Ok(Visited(set0.env.sha, Founded(set0.env.sha), id))
  {
    hide ChangesetHash, CheckHeader, Document, Short, Founded, Apply, FromState, TouchesMeta, Speculate, NameOf, Given, FirstParent, GuardedRun, CachedUpTo, Staged,
         Accepts, IsTip, Visited, Ends, ChainOf, Folded;
    var sha := set0.env.sha;
    var g := Some(GenesisName(sha));
    Founding(set0);
    DocumentReads(sha, g, [Creates(Visitor(id))]);
    AdmittedReplays(set0, FirstLog(sha), g, Tip(Founded(sha), REG, DOC), Arrival(sha, g, id), ArrivalName(sha, g, id), log', head', Visited(sha, Founded(sha), id));
  }

  /** A changeset built on genesis and appended later is folded on top of genesis alone. */
  lemma AppendedOnGenesis(set0: Setting, log: map<string, Value>, head: Option<string>, tip: Tip, cs: Value, hash: string,
                          log': map<string, Value>, head': Option<string>, after: Objects, next: Objects)
    requires Given(set0) && Accepts(set0, tip, cs, hash, log, log', head', after) && Short(hash) !in log
    requires Short(GenesisName(set0.env.sha)) in log && log[Short(GenesisName(set0.env.sha))] == Genesis(set0.env.sha)
    requires FirstParent(cs) == Some(GenesisName(set0.env.sha)) && Apply(set0.env.sha, REG, Founded(set0.env.sha), cs) == Ok(next)
    ensures Ends(log', head') && ChainOf(log', head') == Ok([Genesis(set0.env.sha), cs])
    ensures Folded(set0.env, log', head', None) == Ok(next)
  {
    hide ChangesetHash, CheckHeader, Document, Short, Founded, Apply, FromState, TouchesMeta, Speculate, NameOf, Given, FirstParent, GuardedRun, CachedUpTo, Staged,
         Ends, ChainOf, Folded;
    var sha := set0.env.sha;
    GenesisWalk(set0, log);
    StaleReplays(set0, log, head, tip, cs, hash, log', head', after, GenesisName(sha), Founded(sha), REG);
    AppendExtendsChain(log, Some(GenesisName(sha)), cs, hash);
    assert [Genesis(sha)] + [cs] == [Genesis(sha), cs];
  }

  lemma TitleApplies(sha: Sha)
    ensures FirstParent(Proposal(sha)) == Some(GenesisName(sha)) && AuthorOf(Proposal(sha)) == Some("principal:u")
    ensures Apply(sha, REG, Founded(sha), Proposal(sha)) == Ok(Titled(sha))
    ensures ("node", "q") !in Titled(sha)
  {
    hide ChangesetHash, CheckHeader, Document, Apply, NameOf, FirstParent, AuthorOf, RevisionHash, Updates, Staged, Node;
    assert "q"[0] != "a"[0] && "q"[0] != "b"[0] && "q"[0] != "u"[0];
    DocumentReads(sha, Some(GenesisName(sha)), TitleOps(sha));
    FoundedIsStaged(sha);
    UpdateApplies(sha, Founded(sha), "old", Proposal(sha), "new");
  }

  /** The visitor leaves everyone else as they were. */
  lemma VisitedKeeps(sha: Sha, id: string)
    requires id in {"q", "r"}
    ensures ("node", id) !in Founded(sha)
    ensures U in Visited(sha, Founded(sha), id) && Visited(sha, Founded(sha), id)[U].rev == RevisionHash(sha, User("old"))
  {
    hide RevisionHash, Node;
    assert "q"[0] != "a"[0] && "q"[0] != "b"[0] && "q"[0] != "u"[0] && "r"[0] != "a"[0] && "r"[0] != "b"[0] && "r"[0] != "u"[0];
  }

  /** Genesis is filed first. */
  method Found(set0: Setting) returns (g: Graph)
    requires Given(set0)
    ensures fresh(g) && g.log == FirstLog(set0.env.sha) && g.head == Some(GenesisName(set0.env.sha))
    ensures g.proposals == map[] && g.pending == map[]
    ensures Ends(g.log, g.head) && Folded(set0.env, g.log, g.head, None) == Ok(Founded(set0.env.sha)) && Staged(Founded(set0.env.sha), "old")
  {
    hide Folded, Ends, Staged, Founded, Given, Short, Document, NameOf;
    g := new Graph();
    g.AppendChangeset(Genesis(set0.env.sha), GenesisName(set0.env.sha), Evidence([], []));
    Founding(set0);
    FoundedIsStaged(set0.env.sha);
  }

  /**
   * The owner's update is held; a visitor arrives; the update is approved. All three outcomes are what
   * the policy says, and the visitor, though still filed, is in the chain and in the state no longer.
   */
  method StaleApproval(set0: Setting) returns (g: Graph, held: Result<Outcome>, arrived: Result<Outcome>, approved: Result<Outcome>)
    requires Given(set0) && Apart(set0.env.sha)
    ensures held == Ok(Held) && arrived == Ok(Admitted) && approved == Ok(Admitted)
    ensures var sha := set0.env.sha;
            var q := Short(ArrivalName(sha, Some(GenesisName(sha)), "q"));
            && q in g.log && g.log[q] == Arrival(sha, Some(GenesisName(sha)), "q")
            && Ends(g.log, g.head) && ChainOf(g.log, g.head) == Ok([Genesis(sha), Proposal(sha)])
            && Folded(set0.env, g.log, g.head, None) == Ok(Titled(sha)) && ("node", "q") !in Titled(sha)
  {
    hide *;
    g := Found(set0);
    ghost var sha, first, g0 := set0.env.sha, g.log, g.head;
    ApartReads(sha);
    FirstLogReads(sha);
    ProposalHeld(set0, first, g0);
    assert "principal:" + "u" == "principal:u";
    ghost var tip, after;
    held, tip, after := AdmitOrHold(set0, g, "u", Proposal(set0.env.sha), ProposalName(set0.env.sha), []);
    SameTipRead(set0, first, g0, tip, Tip(Founded(sha), REG, DOC), held);
    Outcomes(held);

    VisitedKeeps(sha, "q");
    arrived := Arrive(set0, g, Founded(sha), "old", Some(GenesisName(set0.env.sha)), "q");
    ghost var log, head, s := g.log, g.head, Visited(sha, Founded(sha), "q");
    AfterArrival(set0, "q", log, head);
    AcceptedNamesHead(set0, Tip(Founded(sha), REG, DOC), Arrival(sha, g0, "q"), ArrivalName(sha, g0, "q"), first, log, head, s);

    ProposalApproved(set0, log, head, s);
    ApprovalShape(sha);
    TitleApplies(sha);
    OpenNow(g.proposals, g.pending, ProposalName(sha), Approval(sha), Proposal(sha));
    approved, tip, after := DecideWithRecord(set0, g, ProposalName(set0.env.sha), Approval(set0.env.sha));
    Outcomes(approved);
    assert approved != Ok(Rejected);
    SameTipRead(set0, log, head, tip, Tip(s, REG, DOC), approved);
    AcceptedNamesHead(set0, tip, Proposal(sha), ProposalName(sha), log, g.log, g.head, after);
    AppendedOnGenesis(set0, log, head, tip, Proposal(sha), ProposalName(sha), g.log, g.head, after, Titled(sha));
  }

  lemma FirstLogReads(sha: Sha)
    ensures FirstLog(sha).Keys == {Short(GenesisName(sha))} && FirstLog(sha)[Short(GenesisName(sha))] == Genesis(sha)
  {
    hide Short, GenesisName, Genesis;
  }

  lemma OpenNow(proposals: map<string, Value>, pending: map<string, Evidence>, hash: string, record: Value, cs: Value)
    requires RecordShape(record, hash) && Short(hash) in proposals && proposals[Short(hash)] == cs
    requires Short(hash) in pending && pending[Short(hash)] == Evidence([], [])
    ensures Open(proposals, pending, hash, record) && Decided(pending, hash, record) == Evidence([record], [])
  {
    OpenIs(pending, hash, record);
    hide RecordShape, FitsProposal, Short;
    assert [] + [record] == [record];
  }

  /**
   * Direct admission does not look at the parent either. Two visitors built on genesis arrive one after
   * the other and both are admitted; the first is then gone. A third without a parent is admitted too,
   * and after that the log cannot be folded at all.
   */
  method StaleArrivals(set0: Setting) returns (g: Graph, first: Result<Outcome>, second: Result<Outcome>, lost: Result<Objects>,
                                               third: Result<Outcome>, end: Result<Objects>)
    requires Given(set0) && Apart(set0.env.sha)
    ensures first == Ok(Admitted) && second == Ok(Admitted) && third == Ok(Admitted)
    ensures lost == Ok(Visited(set0.env.sha, Founded(set0.env.sha), "r")) && ("node", "q") !in lost.value
    ensures Ends(g.log, g.head) && ChainOf(g.log, g.head) == Ok([Arrival(set0.env.sha, None, "o")])
    ensures end.Err? && end == Folded(set0.env, g.log, g.head, None)
  {
    hide *;
    g := Found(set0);
    ghost var sha, log0, g0 := set0.env.sha, g.log, g.head;
    ApartReads(sha);
    FirstLogReads(sha);
    VisitedKeeps(sha, "q");
    first := Arrive(set0, g, Founded(sha), "old", Some(GenesisName(set0.env.sha)), "q");
    ghost var log1, head1, s1 := g.log, g.head, Visited(sha, Founded(sha), "q");
    AfterArrival(set0, "q", log1, head1);
    AcceptedNamesHead(set0, Tip(Founded(sha), REG, DOC), Arrival(sha, g0, "q"), ArrivalName(sha, g0, "q"), log0, log1, head1, s1);

    SecondApplies(set0);
    second := Arrive(set0, g, s1, "old", Some(GenesisName(set0.env.sha)), "r");
    ghost var log2, head2, s2 := g.log, g.head, Visited(sha, Founded(sha), "r");
    AcceptedNamesHead(set0, Tip(s1, REG, DOC), Arrival(sha, g0, "r"), ArrivalName(sha, g0, "r"), log1, log2, head2, Visited(sha, s1, "r"));
    AppendedOnGenesis(set0, log1, head1, Tip(s1, REG, DOC), Arrival(sha, g0, "r"), ArrivalName(sha, g0, "r"), log2, head2, Visited(sha, s1, "r"), s2);
    lost := g.FoldTo(set0.env, None);

    third := Arrive(set0, g, s2, "old", None, "o");
    AcceptedNamesHead(set0, Tip(s2, REG, DOC), Arrival(sha, None, "o"), ArrivalName(sha, None, "o"), log2, g.log, g.head, Visited(sha, s2, "o"));
    OrphanParent(sha);
    OrphanReplays(set0, log2, head2, Tip(s2, REG, DOC), Arrival(sha, None, "o"), ArrivalName(sha, None, "o"), g.log, g.head, Visited(sha, s2, "o"));
    OrphanFails(set0.env);
    end := g.FoldTo(set0.env, None);
  }

  lemma SecondApplies(set0: Setting)
    requires Given(set0)
    ensures var sha := set0.env.sha;
            var g := Some(GenesisName(sha));
            && FirstParent(Arrival(sha, g, "r")) == g
            && Apply(sha, REG, Founded(sha), Arrival(sha, g, "r")) == Ok(Visited(sha, Founded(sha), "r"))
            && Staged(Visited(sha, Founded(sha), "r"), "old")
            && ("node", "r") !in Visited(sha, Founded(sha), "q") && ("node", "q") !in Visited(sha, Founded(sha), "r")
            && ("node", "o") !in Visited(sha, Founded(sha), "r")
  {
    hide ChangesetHash, CheckHeader, Document, Apply, NameOf, FirstParent, RevisionHash, Staged, Node, Creates;
    var sha := set0.env.sha;
    assert "q"[0] != "r"[0] && "o"[0] != "a"[0] && "o"[0] != "b"[0] && "o"[0] != "u"[0] && "o"[0] != "r"[0];
    VisitedKeeps(sha, "q");
    VisitedKeeps(sha, "r");
    DocumentReads(sha, Some(GenesisName(sha)), [Creates(Visitor("r"))]);
    FoundedIsStaged(sha);
    VisitorApplies(sha, Founded(sha), "old", Arrival(sha, Some(GenesisName(sha)), "r"), "r");
  }

  lemma OrphanParent(sha: Sha)
    ensures FirstParent(Arrival(sha, None, "o")) == None && CheckHeader(sha, Arrival(sha, None, "o")) == Ok([Creates(Visitor("o"))])
    ensures OpsOf(Arrival(sha, None, "o")) == [Creates(Visitor("o"))]
  {
    hide ChangesetHash, CheckHeader, Document, NameOf, FirstParent, Node;
    DocumentReads(sha, None, [Creates(Visitor("o"))]);
  }

  lemma CoreUnknown()
    ensures ResolveType(META_REGISTRY, "core/User", None) == None
  {
    hide Bare, RSplitOnce;
    NamesRead();
    assert "core"[0] != "meta"[0];
  }

  lemma Unresolved(reg: Registry, payload: Value, t: string)
    requires GetStr(payload, "type") == Some(t) && ResolveType(reg, t, None) == None
    ensures ValidateNode(reg, payload).Err?
  {
    hide GetStr, ResolveType, CollectedAttrs, AttributesOf, IsRequired, ValidValue;
  }

  lemma UserUnknown(payload: Value)
    requires GetStr(payload, "type") == Some("core/User")
    ensures ValidateNode(META_REGISTRY, payload).Err?
  {
    hide *;
    CoreUnknown();
    Unresolved(META_REGISTRY, payload, "core/User");
  }

  lemma ArrivalIsPlain(cs: Value, id: string)
    requires OpsOf(cs) == [Creates(Visitor(id))]
    ensures !TouchesMeta(map[], cs)
  {
    TypesRead();
    NodeReads(id, "core/User", Map(VISITOR_FIELDS));
    ParsesSingle("create", Visitor(id));
    assert "create"[0] != "delete"[0];
    hide ParseOp, IsMetaType, Node, Creates;
  }

  lemma EmptyRegistry(parse: Parser)
    ensures FromState(parse, map[]) == Ok(META_REGISTRY)
  {
    hide Assemble, Visit;
    NothingAssembles();
    var none: Objects := map[];
    assert none.Keys == {} && InOrder({}) == [];
  }

  lemma CreateRejected(sha: Sha, payload: Value, id: string)
    requires KeyOf(payload) == Ok(("node", id)) && ValidateNode(META_REGISTRY, payload).Err?
    ensures ApplyOps(sha, META_REGISTRY, Working(map[], [], []), [Creates(payload)]).Err?
  {
    ParsesSingle("create", payload);
    hide ParseOp, KeyOf, ValidateNode, NewObject;
    assert ApplyOp(sha, META_REGISTRY, Working(map[], [], []), Creates(payload)).Err?;
  }

  /** Alone in its chain, the visitor has no schema to be read under. */
  lemma OrphanFails(env: Env)
    ensures FoldUpTo(env, map[], true, [Arrival(env.sha, None, "o")], None).Err?
  {
    hide TouchesMeta, Node, Creates, FromState, CheckHeader, ValidateNode, KeyOf, ApplyOps, OpsOf, GetStr, Document, AttributesOf;
    var cs := Arrival(env.sha, None, "o");
    OrphanParent(env.sha);
    ArrivalIsPlain(cs, "o");
    EmptyRegistry(env.parse);
    NodeReads("o", "core/User", Map(VISITOR_FIELDS));
    UserUnknown(Visitor("o"));
    CreateRejected(env.sha, Visitor("o"), "o");
    assert [cs][0] == cs;
    assert Apply(env.sha, META_REGISTRY, map[], cs).Err?;
  }
}
