/**
 * Why the cached replay agrees with the uncached one on guarded chains only: for each of the three
 * shapes the invalidation test overlooks (crates/allod-core/src/store.rs:133-165), a log of three
 * changesets, the first of them genesis, that the cached replay accepts and the uncached one rejects.
 */
module ReplayLimits {
  import opened Text
  import opened Values
  import opened Hashing
  import opened Model
  import opened Objects
  import opened Registries
  import opened Meta
  import opened Fold
  import opened Replay
  import opened Installing
  import opened Store

  /** An entity type with one optional attribute, `package`. */
  const DEF := Map(map["attributes" := Map(map["package" := Map(map[])])])

  const TYPE_NODE := Node("m", "meta/EntityType", TYPE_ATTRIBUTES)

  const TYPE_ATTRIBUTES := Map(map["name" := Str("T"), "package" := Str("p"), "definition" := Str("D")])

  const M: Key := ("node", "m")

  /** The state holds that type and nothing else. */
  function Start(env: Env): Objects {
    map[M := NewObject(env.sha, TYPE_NODE)]
  }

  const PACKAGE := Package(Map(map["T" := DEF]), Null, Null, Null, [])

  const REGISTRY := Registry(META_REGISTRY.packages["p" := PACKAGE], map[])

  function NodeOf(id: string): map<string, Value> {
    map["kind" := Str("node"), "id" := Str(id), "type" := Str("p/T")]
  }

  /** A changeset of one operation. */
  function Single(parents: seq<Value>, verb: string, payload: Value): Value {
    Map(map["parents" := Seq(parents), "operations" := Seq([Map(map[verb := payload])])])
  }

  /** Another node of the type, created afterwards. */
  function Later(parents: seq<Value>): Value {
    Single(parents, "create", Map(NodeOf("n")))
  }

  const CLAIMING := Map(NodeOf("c")["attributes" := Map(map["package" := Str("meta")])])

  function Retyped(env: Env): Value {
    Map(NodeOf("m")["prior" := Str(RevisionHash(env.sha, TYPE_NODE))])
  }

  const REDACTION := Map(map["kind" := Str("node"), "id" := Str("m")])

  // ---------------------------------------------------------------- names

  lemma NamesRead()
    ensures Bare("p/T") == "p/T" && RSplitOnce("p/T", '/') == Some(("p", "T"))
    ensures Bare("meta/EntityType") == "meta/EntityType"
    ensures IsMetaType("meta/EntityType") && !IsMetaType("p/T")
  {
    assert '@' !in "p/T" && '/' !in "T" && "p" + "/" + "T" == "p/T" && |"p/T"| == 3;
    hide *;
    BareIs("p/T");
    QualifiedSplits("p", "T");
    MetaNames();
    NotMeta("p/T");
  }

  lemma TypeResolves()
    ensures ResolveType(REGISTRY, "p/T", None) == Some(Resolved("p", "T", DEF))
    ensures CollectedAttrs(REGISTRY, "p", "T") == map["package" := Map(map[])]
    ensures ResolveType(META_REGISTRY, "p/T", None) == None
  {
    NamesRead();
    hide Bare, RSplitOnce;
    assert "p" != "meta" by {
      assert |"p"| != |"meta"|;
    }
    assert Get(PACKAGE.types, "T") == Some(DEF);
    assert TypeIn(REGISTRY, "p", "T") == Some(Resolved("p", "T", DEF));
    assert Extended(REGISTRY, Resolved("p", "T", DEF)) == None by {
      assert "extends" !in DEF.m by {
        assert |"extends"| != |"attributes"|;
      }
    }
  }

  // ---------------------------------------------------------------- the derived registry

  lemma OneKey(k: Key)
    ensures InOrder({k}) == [k]
  {
    assert |InOrder({k})| == 1 && InOrder({k})[0] in InOrder({k});
  }

  lemma GatherOne(env: Env, s: Objects, k: Key)
    requires k in s
    ensures Gather(env.parse, s, [k], NOTHING) == Visit(env.parse, s, k, NOTHING)
  {
    hide Visit;
    var step := Visit(env.parse, s, k, NOTHING);
    assert [k][1..] == [];
  }

  lemma OneNodeState(env: Env, o: Obj)
    ensures FromState(env.parse, map[M := o]) ==
            match Visit(env.parse, map[M := o], M, NOTHING)
            case Ok(g) => Ok(Assemble(g))
            case Err(e) => Err(e)
  {
    hide RevisionHash, ChangesetHash, Sha256Hex;
    OneKey(M);
    GatherOne(env, map[M := o], M);
    hide Visit, Assemble, InOrder, Gather;
    assert map[M := o].Keys == {M};
  }

  lemma StartVisit(env: Env)
    requires env.parse("D") == Some(DEF)
    ensures Visit(env.parse, Start(env), M, NOTHING) == Ok(NOTHING.(types := map["p" := map["T" := DEF]]))
    ensures IsMetaNode(Start(env), M)
  {
    hide RevisionHash, ChangesetHash, Sha256Hex;
    NamesRead();
    hide Bare, RevisionHash, IsMetaType, Record;
    var o := NewObject(env.sha, TYPE_NODE);
    assert GetStr(TYPE_NODE, "type") == Some("meta/EntityType") && AttributesOf(TYPE_NODE) == TYPE_ATTRIBUTES;
    StartRecord(env);
  }

  lemma StartRecord(env: Env)
    requires env.parse("D") == Some(DEF)
    ensures Record(env.parse, NOTHING, "meta/EntityType", TYPE_ATTRIBUTES) == Ok(NOTHING.(types := map["p" := map["T" := DEF]]))
  {
    assert GetStr(TYPE_ATTRIBUTES, "name") == Some("T") && GetStr(TYPE_ATTRIBUTES, "package") == Some("p");
    assert GetStr(TYPE_ATTRIBUTES, "definition") == Some("D") && GetSeq(TYPE_ATTRIBUTES, "imports") == None;
  }

  lemma StartAssembles()
    ensures Assemble(NOTHING.(types := map["p" := map["T" := DEF]])) == REGISTRY
  {
    var g := NOTHING.(types := map["p" := map["T" := DEF]]);
    assert PackageNames(g) == {"p"};
    assert AssemblePackage(g, "p") == PACKAGE;
  }

  lemma StartRegistry(env: Env)
    requires env.parse("D") == Some(DEF)
    ensures FromState(env.parse, Start(env)) == Ok(REGISTRY)
    ensures IsMetaNode(Start(env), M)
  {
    hide RevisionHash, ChangesetHash, Sha256Hex;
    StartVisit(env);
    StartAssembles();
    OneNodeState(env, NewObject(env.sha, TYPE_NODE));
    hide FromState, Visit, Assemble, NewObject, IsMetaNode;
  }

  /** Once the node is no longer a meta node, nothing but the seeded package is derived. */
  lemma GoneRegistry(env: Env, o: Obj)
    requires !IsMetaNode(map[M := o], M) && !ClaimsMeta(map[M := o], M)
    ensures FromState(env.parse, map[M := o]) == Ok(META_REGISTRY)
  {
    hide RevisionHash, ChangesetHash, Sha256Hex;
    OneNodeState(env, o);
    hide FromState, IsMetaNode, ClaimsMeta;
    NothingAssembles();
  }

  // ---------------------------------------------------------------- one operation

  lemma SingleOps(env: Env, reg: Registry, s: Objects, verb: string, payload: Value, k: Key)
    requires KeyOf(payload) == Ok(k) && k.0 == "node"
    ensures ApplyOps(env.sha, reg, Working(s, [], []), [Map(map[verb := payload])]) ==
            match ApplyVerb(env.sha, reg, s, verb, k, payload)
            case Ok(t) => Ok(Working(t, [], [Touched(verb, payload)]))
            case Err(e) => Err(e)
  {
    ParsesSingle(verb, payload);
    assert "node"[0] != "edge"[0] && k.0 != "edge";
    hide ApplyVerb, ParseOp, KeyOf;
    var op, w := Map(map[verb := payload]), Working(s, [], []);
    var r := ApplyVerb(env.sha, reg, s, verb, k, payload);
    assert [op][0] == op && [op][1..] == [];
    if r.Ok? {
      assert w.touched + [Touched(verb, payload)] == [Touched(verb, payload)];
      assert ApplyOp(env.sha, reg, w, op) == Ok(Working(r.value, [], [Touched(verb, payload)]));
      hide ApplyOp;
      assert ApplyOps(env.sha, reg, Working(r.value, [], [Touched(verb, payload)]), []).Ok?;
    } else {
      assert ApplyOp(env.sha, reg, w, op) == Err(r.error);
    }
  }

  lemma SingleApplies(env: Env, reg: Registry, s: Objects, verb: string, payload: Value, k: Key, ps: seq<Value>)
    requires |ps| <= 1
    requires KeyOf(payload) == Ok(k) && k.0 == "node" && Ruleless(reg)
    requires var r := ApplyVerb(env.sha, reg, s, verb, k, payload); r.Ok? ==> NodesOnly(r.value)
    ensures Apply(env.sha, reg, s, Single(ps, verb, payload)) == ApplyVerb(env.sha, reg, s, verb, k, payload)
  {
    hide RevisionHash, ChangesetHash, Sha256Hex;
    var op := Map(map[verb := payload]);
    var cs := Single(ps, verb, payload);
    assert OpsOf(cs) == [op] && GetSeq(cs, "parents") == Some(ps) && GetStr(cs, "hash") == None;
    SingleHeader(env, cs, op, ps);
    SingleOps(env, reg, s, verb, payload, k);
    hide ApplyVerb, ApplyOps, CheckHeader, KeyOf, Single, Finish, NodesOnly, Ruleless;
    var r := ApplyVerb(env.sha, reg, s, verb, k, payload);
    if r.Ok? {
      Finishes(reg, Working(r.value, [], [Touched(verb, payload)]));
    }
  }

  lemma SingleHeader(env: Env, cs: Value, op: Value, ps: seq<Value>)
    requires |ps| <= 1
    requires cs.Map? && GetSeq(cs, "operations") == Some([op]) && GetSeq(cs, "parents") == Some(ps) && GetStr(cs, "hash") == None
    ensures CheckHeader(env.sha, cs) == Ok([op])
  {
    assert |OpLeaves(env.sha, [op])| == 1;
  }

  lemma Bools()
    ensures Ruleless(REGISTRY) && Ruleless(META_REGISTRY)
  {
  }

  lemma NodeValidates(s: Objects, payload: Value)
    requires GetStr(payload, "type") == Some("p/T")
    requires AttributesOf(payload).Map? ==> AttributesOf(payload).m.Keys <= {"package"}
    ensures ValidatePayload(REGISTRY, s, "node", payload).Ok?
    ensures ValidatePayload(META_REGISTRY, s, "node", payload).Err?
  {
    TypeResolves();
    hide ResolveType, CollectedAttrs;
    assert Get(Map(map[]), "required") == None && GetStr(Map(map[]), "type") == None;
  }

  // ---------------------------------------------------------------- the divergence

  lemma CachedTwo(env: Env, s: Objects, reg: Registry, first: Value, s': Objects, second: Value)
    requires !TouchesMeta(s, first) && !TouchesMeta(s', second)
    requires FromState(env.parse, s) == Ok(reg)
    requires Apply(env.sha, reg, s, first) == Ok(s')
    ensures CachedUpTo(env, s, false, None, [first, second], None) == Apply(env.sha, reg, s', second)
  {
    hide Apply, TouchesMeta, FromState;
    var chain, rest := [first, second], [second];
    assert chain[0] == first && chain[1..] == rest && rest[0] == second && rest[1..] == [];
    assert CachedUpTo(env, s, false, None, chain, None) == CachedUpTo(env, s', false, Some(reg), rest, None);
    var r := Apply(env.sha, reg, s', second);
    assert r.Ok? ==> CachedUpTo(env, r.value, false, Some(reg), [], None) == r;
  }

  lemma FoldedTwo(env: Env, s: Objects, reg: Registry, first: Value, s': Objects, second: Value)
    requires FromState(env.parse, s) == Ok(reg)
    requires Apply(env.sha, reg, s, first) == Ok(s')
    requires FromState(env.parse, s').Err? || Apply(env.sha, FromState(env.parse, s').value, s', second).Err?
    ensures FoldUpTo(env, s, false, [first, second], None).Err?
  {
    hide Apply, FromState, TouchesMeta, Speculate;
    var chain, rest := [first, second], [second];
    assert chain[0] == first && chain[1..] == rest && rest[0] == second;
    assert FoldUpTo(env, s, false, chain, None) == FoldUpTo(env, s', false, rest, None);
  }

  /** The changeset is let past the invalidation test, and the later one only fits the cached schema. */
  lemma Diverges(env: Env, cs: Value, s': Objects, qs: seq<Value>)
    requires |qs| <= 1
    requires env.parse("D") == Some(DEF)
    requires !TouchesMeta(Start(env), cs) && !TouchesMeta(s', Later(qs))
    requires Apply(env.sha, REGISTRY, Start(env), cs) == Ok(s')
    requires ("node", "n") !in s' && NodesOnly(s')
    requires FromState(env.parse, s').Err? || FromState(env.parse, s') == Ok(META_REGISTRY)
    ensures CachedUpTo(env, Start(env), false, None, [cs, Later(qs)], None).Ok?
    ensures FoldUpTo(env, Start(env), false, [cs, Later(qs)], None).Err?
  {
    hide RevisionHash, ChangesetHash, Sha256Hex;
    StartRegistry(env);
    LaterApplies(env, s', qs);
    hide Apply, TouchesMeta, FromState, Start, Single, NodesOnly;
    CachedTwo(env, Start(env), REGISTRY, cs, s', Later(qs));
    FoldedTwo(env, Start(env), REGISTRY, cs, s', Later(qs));
  }

  lemma LaterApplies(env: Env, s: Objects, qs: seq<Value>)
    requires |qs| <= 1
    requires ("node", "n") !in s && NodesOnly(s)
    ensures Apply(env.sha, REGISTRY, s, Later(qs)).Ok? && Apply(env.sha, META_REGISTRY, s, Later(qs)).Err?
  {
    hide RevisionHash, ChangesetHash, Sha256Hex;
    var payload := Map(NodeOf("n"));
    Bools();
    assert KeyOf(payload) == Ok(("node", "n")) && GetStr(payload, "type") == Some("p/T") && AttributesOf(payload) == Null;
    NodeValidates(s, payload);
    hide ValidatePayload, Apply, NodeOf;
    SingleApplies(env, REGISTRY, s, "create", payload, ("node", "n"), qs);
    SingleApplies(env, META_REGISTRY, s, "create", payload, ("node", "n"), qs);
  }

  // ---------------------------------------------------------------- the three shapes

  lemma LaterIsPlain(s: Objects, qs: seq<Value>)
    requires |qs| <= 1
    ensures !TouchesMeta(s, Later(qs))
  {
    hide RevisionHash, ChangesetHash, Sha256Hex;
    NamesRead();
    assert "create"[0] != "delete"[0];
    SingleIsPlain(s, "create", Map(NodeOf("n")), "p/T", qs);
  }

  /** A single operation writing a node of a non-meta type does not touch the schema. */
  lemma SingleIsPlain(s: Objects, verb: string, payload: Value, t: string, ps: seq<Value>)
    requires |ps| <= 1
    requires verb != "delete" && (GetStr(payload, "type") == None || GetStr(payload, "type") == Some(t)) && !IsMetaType(t)
    ensures !TouchesMeta(s, Single(ps, verb, payload))
  {
    hide RevisionHash, ChangesetHash, Sha256Hex;
    var op := Map(map[verb := payload]);
    ParsesSingle(verb, payload);
    assert OpsOf(Single(ps, verb, payload)) == [op];
    hide ParseOp, IsMetaType;
  }

  /** What the concrete contents say. */
  lemma ContentsRead(env: Env)
    ensures var c := Map(NodeOf("m")); GetStr(c, "type") == Some("p/T") && AttributesOf(c) == Null
    ensures GetStr(CLAIMING, "type") == Some("p/T") && KeyOf(CLAIMING) == Ok(("node", "c"))
    ensures AttributesOf(CLAIMING) == Map(map["package" := Str("meta")])
    ensures KeyOf(REDACTION) == Ok(M) && GetStr(REDACTION, "type") == None
    ensures GetStr(Envelope("node", "m", TYPE_NODE), "type") == None
    ensures Remove(Retyped(env), "prior") == Map(NodeOf("m")) && GetStr(Retyped(env), "prior") == Some(RevisionHash(env.sha, TYPE_NODE))
    ensures KeyOf(Retyped(env)) == Ok(M) && GetStr(Retyped(env), "type") == Some("p/T")
  {
    hide RevisionHash;
  }

  lemma GoneWithoutMetaType(env: Env, o: Obj)
    requires GetStr(o.content, "type") == None || (GetStr(o.content, "type") == Some("p/T") && AttributesOf(o.content) == Null)
    ensures FromState(env.parse, map[M := o]) == Ok(META_REGISTRY)
  {
    NamesRead();
    hide FromState, Bare, IsMetaType;
    GoneRegistry(env, o);
  }

  lemma RedactStart(env: Env, s: Objects, payload: Value, o: Obj)
    requires s.Keys == {M} && o == s[M].(content := Envelope("node", "m", s[M].content), redacted := true)
    ensures ApplyVerb(env.sha, REGISTRY, s, "redact-document", M, payload) == Ok(map[M := o])
  {
    hide Envelope, Create, Update, Delete;
    assert s[M := o] == map[M := o];
    assert "redact-document"[0] != "create"[0] && "redact-document"[0] != "update"[0] && "redact-document"[0] != "delete"[0];
  }

  lemma StartHolds(env: Env)
    ensures Start(env).Keys == {M} && Start(env)[M].content == TYPE_NODE && !Start(env)[M].deleted
    ensures Start(env)[M].rev == RevisionHash(env.sha, TYPE_NODE)
  {
    hide RevisionHash;
  }

  lemma RedactionOf(env: Env, payload: Value, envelope: Value, ps: seq<Value>, qs: seq<Value>)
    requires |ps| <= 1 && |qs| <= 1
    requires env.parse("D") == Some(DEF) && !IsMetaType("p/T")
    requires KeyOf(payload) == Ok(M) && GetStr(payload, "type") == None
    requires envelope == Envelope("node", "m", TYPE_NODE) && GetStr(envelope, "type") == None
    ensures CachedUpTo(env, Start(env), false, None, [Single(ps, "redact-document", payload), Later(qs)], None).Ok?
    ensures FoldUpTo(env, Start(env), false, [Single(ps, "redact-document", payload), Later(qs)], None).Err?
  {
    hide Start, Envelope, RevisionHash, Single, FromState, Bare, ApplyVerb, CachedUpTo, FoldUpTo, TouchesMeta, KeyOf, IsMetaType;
    StartHolds(env);
    assert "redact-document"[0] != "delete"[0] && "m"[0] != "n"[0];
    var o := Start(env)[M].(content := envelope, redacted := true);
    RedactStart(env, Start(env), payload, o);
    GoneWithoutMetaType(env, o);
    PlainFinale(env, "redact-document", payload, M, map[M := o], ps, qs);
  }

  lemma RedactionMidway(env: Env, ps: seq<Value>, qs: seq<Value>)
    requires |ps| <= 1 && |qs| <= 1
    requires env.parse("D") == Some(DEF)
    ensures var cs := Single(ps, "redact-document", REDACTION);
            && CachedUpTo(env, Start(env), false, None, [cs, Later(qs)], None).Ok?
            && FoldUpTo(env, Start(env), false, [cs, Later(qs)], None).Err?
  {
    ContentsRead(env);
    NamesRead();
    hide *;
    RedactionOf(env, REDACTION, Envelope("node", "m", TYPE_NODE), ps, qs);
  }

  lemma PlainFinale(env: Env, verb: string, payload: Value, k: Key, s': Objects, ps: seq<Value>, qs: seq<Value>)
    requires |ps| <= 1 && |qs| <= 1
    requires env.parse("D") == Some(DEF) && !IsMetaType("p/T") && verb != "delete"
    requires KeyOf(payload) == Ok(k) && k.0 == "node"
    requires GetStr(payload, "type") == None || GetStr(payload, "type") == Some("p/T")
    requires ApplyVerb(env.sha, REGISTRY, Start(env), verb, k, payload) == Ok(s')
    requires ("node", "n") !in s' && NodesOnly(s')
    requires FromState(env.parse, s').Err? || FromState(env.parse, s') == Ok(META_REGISTRY)
    ensures CachedUpTo(env, Start(env), false, None, [Single(ps, verb, payload), Later(qs)], None).Ok?
    ensures FoldUpTo(env, Start(env), false, [Single(ps, verb, payload), Later(qs)], None).Err?
  {
    hide *;
    SingleIsPlain(Start(env), verb, payload, "p/T", ps);
    LaterIsPlain(s', qs);
    Finale(env, verb, payload, k, s', ps, qs);
  }

  lemma Finale(env: Env, verb: string, payload: Value, k: Key, s': Objects, ps: seq<Value>, qs: seq<Value>)
    requires |ps| <= 1 && |qs| <= 1
    requires env.parse("D") == Some(DEF)
    requires KeyOf(payload) == Ok(k) && k.0 == "node"
    requires ApplyVerb(env.sha, REGISTRY, Start(env), verb, k, payload) == Ok(s')
    requires !TouchesMeta(Start(env), Single(ps, verb, payload)) && !TouchesMeta(s', Later(qs))
    requires ("node", "n") !in s' && NodesOnly(s')
    requires FromState(env.parse, s').Err? || FromState(env.parse, s') == Ok(META_REGISTRY)
    ensures CachedUpTo(env, Start(env), false, None, [Single(ps, verb, payload), Later(qs)], None).Ok?
    ensures FoldUpTo(env, Start(env), false, [Single(ps, verb, payload), Later(qs)], None).Err?
  {
    Bools();
    hide *;
    SingleApplies(env, REGISTRY, Start(env), verb, payload, k, ps);
    Diverges(env, Single(ps, verb, payload), s', qs);
  }

  lemma NewObjectIs(env: Env, content: Value)
    ensures !NewObject(env.sha, content).deleted && NewObject(env.sha, content).content == content
  {
    hide RevisionHash;
  }

  lemma UpdateOf(env: Env, s: Objects, payload: Value, content: Value)
    requires s.Keys == {M} && !s[M].deleted && GetStr(payload, "prior") == Some(s[M].rev)
    requires content == Remove(payload, "prior")
    requires GetStr(content, "type") == Some("p/T") && AttributesOf(content) == Null
    ensures ApplyVerb(env.sha, REGISTRY, s, "update", M, payload) == Ok(map[M := NewObject(env.sha, content)])
  {
    hide RevisionHash, ValidatePayload, Create, Remove, AttributesOf, Delete, Redact, NewObject;
    NodeValidates(s, content);
    var o := NewObject(env.sha, content);
    assert s[M := o] == map[M := o];
    assert "update"[0] != "create"[0];
  }

  lemma RetypingOf(env: Env, payload: Value, content: Value, ps: seq<Value>, qs: seq<Value>)
    requires |ps| <= 1 && |qs| <= 1
    requires env.parse("D") == Some(DEF) && !IsMetaType("p/T")
    requires KeyOf(payload) == Ok(M) && GetStr(payload, "type") == Some("p/T")
    requires GetStr(payload, "prior") == Some(RevisionHash(env.sha, TYPE_NODE)) && content == Remove(payload, "prior")
    requires GetStr(content, "type") == Some("p/T") && AttributesOf(content) == Null
    ensures CachedUpTo(env, Start(env), false, None, [Single(ps, "update", payload), Later(qs)], None).Ok?
    ensures FoldUpTo(env, Start(env), false, [Single(ps, "update", payload), Later(qs)], None).Err?
  {
    hide RevisionHash, Bare, Single, Start, FromState, ApplyVerb, CachedUpTo, FoldUpTo, TouchesMeta, KeyOf, Remove, AttributesOf, NewObject, IsMetaType, GetStr;
    StartHolds(env);
    NewObjectIs(env, content);
    assert "update"[0] != "delete"[0] && "m"[0] != "n"[0];
    var o := NewObject(env.sha, content);
    assert NodesOnly(map[M := o]);
    hide NodesOnly;
    UpdateOf(env, Start(env), payload, content);
    GoneWithoutMetaType(env, o);
    PlainFinale(env, "update", payload, M, map[M := o], ps, qs);
  }

  lemma RetypingMidway(env: Env, ps: seq<Value>, qs: seq<Value>)
    requires |ps| <= 1 && |qs| <= 1
    requires env.parse("D") == Some(DEF)
    ensures var cs := Single(ps, "update", Retyped(env));
            && CachedUpTo(env, Start(env), false, None, [cs, Later(qs)], None).Ok?
            && FoldUpTo(env, Start(env), false, [cs, Later(qs)], None).Err?
  {
    ContentsRead(env);
    NamesRead();
    hide *;
    RetypingOf(env, Retyped(env), Map(NodeOf("m")), ps, qs);
  }

  lemma CreateOf(env: Env, s: Objects, k: Key, content: Value)
    requires k !in s && k.0 == "node"
    requires GetStr(content, "type") == Some("p/T")
    requires AttributesOf(content).Map? ==> AttributesOf(content).m.Keys <= {"package"}
    ensures ApplyVerb(env.sha, REGISTRY, s, "create", k, content) == Ok(s[k := NewObject(env.sha, content)])
  {
    NodeValidates(s, content);
    hide RevisionHash, ValidatePayload, Update, Delete, Redact;
  }

  lemma ClaimIsRejected(env: Env, s: Objects, k: Key, claim: Value)
    requires k in s && k.0 == "node" && !s[k].deleted && s[k].content == claim
    requires GetStr(claim, "type") == Some("p/T") && GetStr(AttributesOf(claim), "package") == Some("meta")
    ensures FromState(env.parse, s).Err?
  {
    NamesRead();
    hide IsMetaType, Bare, Visit;
    assert ClaimsMeta(s, k);
    hide ClaimsMeta;
    ClaimFails(env.parse, s, InOrder(s.Keys), NOTHING, k);
  }

  lemma ClaimOf(env: Env, k: Key, claim: Value, ps: seq<Value>, qs: seq<Value>)
    requires |ps| <= 1 && |qs| <= 1
    requires env.parse("D") == Some(DEF) && !IsMetaType("p/T")
    requires KeyOf(claim) == Ok(k) && k.0 == "node" && k.1 != "m" && k.1 != "n"
    requires GetStr(claim, "type") == Some("p/T") && AttributesOf(claim) == Map(map["package" := Str("meta")])
    ensures CachedUpTo(env, Start(env), false, None, [Single(ps, "create", claim), Later(qs)], None).Ok?
    ensures FoldUpTo(env, Start(env), false, [Single(ps, "create", claim), Later(qs)], None).Err?
  {
    hide RevisionHash, Bare, Single, Start, FromState, TouchesMeta, ApplyVerb, CachedUpTo, FoldUpTo, KeyOf, AttributesOf, IsMetaType, NewObject;
    StartHolds(env);
    NewObjectIs(env, claim);
    assert "create"[0] != "delete"[0] && "m"[0] != "n"[0];
    CreateOf(env, Start(env), k, claim);
    var s' := Start(env)[k := NewObject(env.sha, claim)];
    assert GetStr(AttributesOf(claim), "package") == Some("meta");
    assert NodesOnly(s');
    hide GetStr, NodesOnly;
    ClaimIsRejected(env, s', k, claim);
    PlainFinale(env, "create", claim, k, s', ps, qs);
  }

  lemma ClaimMidway(env: Env, ps: seq<Value>, qs: seq<Value>)
    requires |ps| <= 1 && |qs| <= 1
    requires env.parse("D") == Some(DEF)
    ensures var cs := Single(ps, "create", CLAIMING);
            && CachedUpTo(env, Start(env), false, None, [cs, Later(qs)], None).Ok?
            && FoldUpTo(env, Start(env), false, [cs, Later(qs)], None).Err?
  {
    ContentsRead(env);
    NamesRead();
    assert "c"[0] != "m"[0] && "c"[0] != "n"[0];
    hide *;
    ClaimOf(env, ("node", "c"), CLAIMING, ps, qs);
  }

  // ---------------------------------------------------------------- from genesis on

  /** The first changeset installs the type. */
  const GENESIS := Single([], "create", TYPE_NODE)

  lemma TypeNodeReads()
    ensures KeyOf(TYPE_NODE) == Ok(M) && GetStr(TYPE_NODE, "type") == Some("meta/EntityType") && AttributesOf(TYPE_NODE) == TYPE_ATTRIBUTES
    ensures GetStr(TYPE_NODE, "kind") == Some("node") && GetStr(TYPE_NODE, "id") == Some("m")
    ensures TYPE_ATTRIBUTES.m.Keys == {"name", "package", "definition"}
  {
    NodeReads("m", "meta/EntityType", TYPE_ATTRIBUTES);
    hide Node, GetStr, KeyOf, AttributesOf;
  }

  lemma Structless()
    ensures "meta" in REGISTRY.packages && REGISTRY.packages["meta"] == META_PACKAGE
    ensures ResolveStruct(REGISTRY, "string") == None
  {
    assert "p" != "meta" by {
      assert |"p"| != |"meta"|;
    }
    assert forall p :: p in REGISTRY.packages ==> Get(REGISTRY.packages[p].structs, "string").None?;
  }

  lemma TypeNodeValidates(s: Objects)
    ensures ValidatePayload(REGISTRY, s, "node", TYPE_NODE).Ok?
  {
    hide ResolveType, CollectedAttrs, Fills, Declared, GetStr, AttributesOf, ValidateNode;
    TypeNodeReads();
    Structless();
    MetaTypesResolve(REGISTRY);
    ElementFills(REGISTRY, TYPE_ATTRIBUTES.m);
    FilledIsValid(REGISTRY, TYPE_NODE, "meta/EntityType", Resolved("meta", "EntityType", ELEMENT), TYPE_ATTRIBUTES.m);
  }

  lemma InstallTouches()
    ensures TouchesMeta(map[], GENESIS) && OpsOf(GENESIS) == [Map(map["create" := TYPE_NODE])]
  {
    TypeNodeReads();
    NamesRead();
    hide IsMetaType, Bare;
    var op := Map(map["create" := TYPE_NODE]);
    ParsesSingle("create", TYPE_NODE);
    assert OpsOf(GENESIS) == [op];
    hide ParseOp;
    assert OpTouchesMeta(map[], op);
  }

  lemma InstallWrites()
    ensures WritesMeta(Touched("create", TYPE_NODE)) && PayloadType(TYPE_NODE) == Some("meta/EntityType")
  {
    hide GetStr, IsMetaType, Bare;
    TypeNodeReads();
    NamesRead();
  }

  lemma InstallSpeculates(env: Env)
    ensures Speculate(env, map[], [Creates(TYPE_NODE)]) == Start(env)
  {
    hide RevisionHash, ParseOp, ResolveType, WritesMeta, PayloadType, GetStr, Speculate, SpeculateOp, Node;
    TypeNodeReads();
    InstallWrites();
    MetaIsInstalled();
    MetaTypesResolve(META_REGISTRY);
    CreateSpeculates(env, map[], TYPE_NODE, "m");
    OneSpeculates(env, map[], Creates(TYPE_NODE));
    var none: Objects := map[];
    assert none[M := NewObject(env.sha, TYPE_NODE)] == Start(env);
  }

  /** Genesis is read under the schema it installs, and leaves the state that holds it. */
  lemma GenesisApplies(env: Env)
    requires env.parse("D") == Some(DEF)
    ensures RegistryFor(env, map[], true, GENESIS) == Ok(REGISTRY)
    ensures Apply(env.sha, REGISTRY, map[], GENESIS) == Ok(Start(env))
  {
    Bools();
    hide Speculate, FromState, Start, TouchesMeta, KeyOf, ValidatePayload, Apply, Ruleless, RevisionHash, IsMetaNode, GetStr, AttributesOf, ApplyVerb;
    InstallTouches();
    InstallSpeculates(env);
    StartRegistry(env);
    TypeNodeReads();
    TypeNodeValidates(map[]);
    InstallCreates(env);
    StartHolds(env);
    SingleApplies(env, REGISTRY, map[], "create", TYPE_NODE, M, []);
  }

  lemma InstallCreates(env: Env)
    requires ValidatePayload(REGISTRY, map[], "node", TYPE_NODE).Ok?
    ensures ApplyVerb(env.sha, REGISTRY, map[], "create", M, TYPE_NODE) == Ok(Start(env))
  {
    hide ValidatePayload, RevisionHash, Update, Delete, Redact;
    var none: Objects := map[];
    assert none[M := NewObject(env.sha, TYPE_NODE)] == Start(env);
  }

  lemma AfterGenesis(env: Env, rest: seq<Value>)
    requires env.parse("D") == Some(DEF)
    ensures CachedUpTo(env, map[], true, None, [GENESIS] + rest, None) == CachedUpTo(env, Start(env), false, None, rest, None)
    ensures FoldUpTo(env, map[], true, [GENESIS] + rest, None) == FoldUpTo(env, Start(env), false, rest, None)
  {
    hide Apply, TouchesMeta, FromState, Start, RegistryFor, Single, OpsOf;
    GenesisApplies(env);
    InstallTouches();
    assert ([GENESIS] + rest)[0] == GENESIS && ([GENESIS] + rest)[1..] == rest;
  }

  /** Three changesets under distinct names, each the parent of the next. */
  ghost predicate Named(g: string, c: string, l: string) {
    Short(g) != Short(c) && Short(g) != Short(l) && Short(c) != Short(l)
  }

  function LogOf(g: string, c: string, l: string, cs: Value): map<string, Value> {
    map[Short(g) := GENESIS, Short(c) := cs, Short(l) := Later([Str(c)])]
  }

  lemma WalkThree(log: map<string, Value>, g: string, c: string, l: string, first: Value, second: Value, third: Value)
    requires Short(g) in log && log[Short(g)] == first && FirstParent(first) == None
    requires Short(c) in log && log[Short(c)] == second && FirstParent(second) == Some(g)
    requires Short(l) in log && log[Short(l)] == third && FirstParent(third) == Some(c)
    ensures Walk(log, l, 3) == Some(Ok([first] + [second, third]))
  {
    hide Short, FirstParent;
    assert Walk(log, g, 1) == Some(Ok([first]));
    assert Walk(log, c, 2) == Some(Ok([first] + [second]));
    Append([first], [second], [third]);
    assert [second] + [third] == [second, third];
  }

  lemma LogReads(g: string, c: string, l: string, verb: string, payload: Value)
    requires Named(g, c, l)
    ensures var cs := Single([Str(g)], verb, payload);
            && Ends(LogOf(g, c, l, cs), Some(l))
            && ChainOf(LogOf(g, c, l, cs), Some(l)) == Ok([GENESIS] + [cs, Later([Str(c)])])
  {
    hide Short, Single, FirstParent, Walk, ChainOf, Ends;
    var cs, later := Single([Str(g)], verb, payload), Later([Str(c)]);
    var log := LogOf(g, c, l, cs);
    ParentOf([], "create", TYPE_NODE);
    ParentOf([Str(g)], verb, payload);
    ParentOf([Str(c)], "create", Map(NodeOf("n")));
    WalkThree(log, g, c, l, GENESIS, cs, later);
    ChainIsWalk(log, l, 3);
  }

  lemma ParentOf(ps: seq<Value>, verb: string, payload: Value)
    requires |ps| <= 1
    ensures ps == [] ==> FirstParent(Single(ps, verb, payload)) == None
    ensures forall p :: ps == [Str(p)] ==> FirstParent(Single(ps, verb, payload)) == Some(p)
  {
    assert GetSeq(Single(ps, verb, payload), "parents") == Some(ps);
    assert |ps| == 1 ==> ps[1..] == [];
  }

  /** The log reads back to a chain that the program folds and the uncached replay rejects. */
  ghost predicate Disagree(env: Env, log: map<string, Value>, head: string) {
    && Ends(log, Some(head)) && ChainOf(log, Some(head)).Ok?
    && Folded(env, log, Some(head), None).Ok?
    && FoldUpTo(env, map[], true, ChainOf(log, Some(head)).value, None).Err?
  }

  lemma MidwayDisagrees(env: Env, g: string, c: string, l: string, verb: string, payload: Value)
    requires env.parse("D") == Some(DEF) && Named(g, c, l)
    requires CachedUpTo(env, Start(env), false, None, [Single([Str(g)], verb, payload), Later([Str(c)])], None).Ok?
    requires FoldUpTo(env, Start(env), false, [Single([Str(g)], verb, payload), Later([Str(c)])], None).Err?
    ensures Disagree(env, LogOf(g, c, l, Single([Str(g)], verb, payload)), l)
  {
    hide CachedUpTo, FoldUpTo, ChainOf, Ends, Single, LogOf, Named, Start;
    LogReads(g, c, l, verb, payload);
    AfterGenesis(env, [Single([Str(g)], verb, payload), Later([Str(c)])]);
  }

  /** A meta node retyped to a type it defined itself. */
  lemma RetypingDiverges(env: Env, g: string, c: string, l: string)
    requires env.parse("D") == Some(DEF) && Named(g, c, l)
    ensures Disagree(env, LogOf(g, c, l, Single([Str(g)], "update", Retyped(env))), l)
  {
    hide *;
    RetypingMidway(env, [Str(g)], [Str(c)]);
    MidwayDisagrees(env, g, c, l, "update", Retyped(env));
  }

  /** A meta node redacted: its type is gone, but the cached schema still has it. */
  lemma RedactionDiverges(env: Env, g: string, c: string, l: string)
    requires env.parse("D") == Some(DEF) && Named(g, c, l)
    ensures Disagree(env, LogOf(g, c, l, Single([Str(g)], "redact-document", REDACTION)), l)
  {
    hide *;
    RedactionMidway(env, [Str(g)], [Str(c)]);
    MidwayDisagrees(env, g, c, l, "redact-document", REDACTION);
  }

  /** A node of another type that claims the reserved package: the next derivation fails. */
  lemma ClaimDiverges(env: Env, g: string, c: string, l: string)
    requires env.parse("D") == Some(DEF) && Named(g, c, l)
    ensures Disagree(env, LogOf(g, c, l, Single([Str(g)], "create", CLAIMING)), l)
  {
    hide *;
    ClaimMidway(env, [Str(g)], [Str(c)]);
    MidwayDisagrees(env, g, c, l, "create", CLAIMING);
  }

  /** Once a state holds such a claim, the uncached replay accepts no further changeset of any kind. */
  lemma ClaimStopsReplay(env: Env, s: Objects, chain: seq<Value>, stop: Option<string>)
    requires !NoClaims(s) && chain != []
    ensures FoldUpTo(env, s, false, chain, stop).Err?
  {
    hide FromState, Apply, TouchesMeta, Speculate, NoClaims;
    if FromState(env.parse, s).Ok? {
      DerivedMeansUnclaimed(env, s);
    }
  }
}
