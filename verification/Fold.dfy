/**
 * Applying one changeset to a state (crates/allod-core/src/fold.rs). `Apply` is the specification,
 * a function of the state, the registry and the changeset; `State.ApplyChangeset` is the method.
 * Error messages name the kind of failure; where the program walks a hash map, which of several
 * failures it meets first is not fixed, and they share one message here.
 */
module Fold {
  import opened Text
  import opened Values
  import opened Order
  import opened Hashing
  import opened Model
  import opened Objects
  import opened Registries

  // ---------------------------------------------------------------- payload validation

  predicate IsRequired(def: Value) {
    Get(def, "required") == Some(Bool(true))
  }

  /** A struct definition by its graph-global name; names are unique across packages. */
  function ResolveStruct(reg: Registry, name: string): Option<Value> {
    var declaring := set p | p in reg.packages && Get(reg.packages[p].structs, name).Some?;
    if declaring == {} then None
    else
      var names := StringsInOrder(declaring);
      assert names[0] in names;
      Get(reg.packages[names[0]].structs, name)
  }

  function Between(s: string, prefix: string, suffix: string): Option<string> {
    match StripPrefix(s, prefix)
    case None => None
    case Some(rest) => StripSuffix(rest, suffix)
  }

  function TrimAll(parts: seq<string>): seq<string> {
    seq(|parts|, i requires 0 <= i < |parts| => Trim(parts[i]))
  }

  predicate ValidValue(reg: Registry, texpr: string, val: Value)
    decreases val
  {
    var t := Trim(texpr);
    match Between(t, "list<", ">")
    case Some(inner) => val.Seq? ==> forall x | x in val.items :: ValidValue(reg, inner, x)
    case None =>
      match Between(t, "enum<", ">")
      case Some(inner) => val.Str? && val.s in TrimAll(Split(inner, '|'))
      case None =>
        match ResolveStruct(reg, t)
        case None => true
        case Some(sdef) =>
          sdef.Map? ==> forall f | f in sdef.m ::
            && (IsRequired(sdef.m[f]) ==> Get(val, f).Some?)
            && (val.Map? && f in val.m && GetStr(sdef.m[f], "type").Some? ==>
                  ValidValue(reg, GetStr(sdef.m[f], "type").value, val.m[f]))
  }

  lemma TrimmedIn(parts: seq<string>, k: string)
    requires k in parts && Trim(k) == k
    ensures k in TrimAll(parts)
  {
    hide Trim;
    var i :| 0 <= i < |parts| && parts[i] == k;
    assert TrimAll(parts)[i] == k;
  }

  lemma EnumReads(t: string, inner: string)
    requires t == "enum<" + inner + ">"
    ensures Trim(t) == t && Between(t, "list<", ">") == None && Between(t, "enum<", ">") == Some(inner)
  {
    assert t[0] == 'e' && "list<"[0] == 'l' && t[|t| - 1] == '>';
    TrimKeeps(t);
    hide Trim;
    assert t[5..] == inner + ">";
  }

  /** A type that is no list, no enumeration and no declared struct takes any value. */
  lemma UndeclaredIsFree(reg: Registry, t: string, v: Value)
    requires t != [] && !IsWhitespace(t[0]) && !IsWhitespace(t[|t| - 1])
    requires !("list<" <= t) && !("enum<" <= t) && ResolveStruct(reg, t) == None
    ensures ValidValue(reg, t, v)
  {
    hide Trim, ResolveStruct;
    TrimKeeps(t);
  }

  function ValidateNode(reg: Registry, payload: Value): Result<()> {
    var tref :- OrErr(GetStr(payload, "type"), "node needs a type");
    var t :- OrErr(ResolveType(reg, tref, None), "node type does not resolve");
    var attrs, given := CollectedAttrs(reg, t.pkg, t.name), AttributesOf(payload);
    if exists a | a in attrs :: IsRequired(attrs[a]) && Get(given, a).None? then Err("missing required attribute")
    else if given.Map? && exists a | a in given.m ::
              a !in attrs || (GetStr(attrs[a], "type").Some? && !ValidValue(reg, GetStr(attrs[a], "type").value, given.m[a]))
         then Err("attribute not declared or not valid")
    else Ok(())
  }

  /** The package a qualified reference names. */
  function PackageIn(reference: string): Option<string> {
    match RSplitOnce(Bare(reference), '/')
    case Some((p, _)) => Some(p)
    case None => None
  }

  lemma StringIsFree(reg: Registry, v: Value)
    requires ResolveStruct(reg, "string") == None
    ensures ValidValue(reg, "string", v)
  {
    assert "string"[0] != "list<"[0] && "string"[0] != "enum<"[0];
    hide ResolveStruct, ValidValue;
    UndeclaredIsFree(reg, "string", v);
  }

  lemma StringListIsFree(reg: Registry, v: Value)
    requires ResolveStruct(reg, "string") == None
    ensures ValidValue(reg, "list<string>", v)
  {
    hide Trim, ResolveStruct;
    var t := "list<string>";
    TrimKeeps(t);
    assert t[5..] == "string" + ">" && Between(t, "list<", ">") == Some("string");
    if v.Seq? {
      forall x | x in v.items ensures ValidValue(reg, "string", x) {
        StringIsFree(reg, x);
      }
    }
  }

  /** Every given attribute is declared and valid, and every required one is given. */
  ghost predicate Fills(reg: Registry, attrs: map<string, Value>, given: map<string, Value>) {
    && (forall a :: a in attrs && IsRequired(attrs[a]) ==> a in given)
    && (forall a :: a in given ==> a in attrs && (GetStr(attrs[a], "type").Some? ==> ValidValue(reg, GetStr(attrs[a], "type").value, given[a])))
  }

  lemma FilledIsValid(reg: Registry, payload: Value, tref: string, t: Resolved, given: map<string, Value>)
    requires GetStr(payload, "type") == Some(tref) && ResolveType(reg, tref, None) == Some(t)
    requires AttributesOf(payload) == Map(given)
    ensures ValidateNode(reg, payload).Ok? <==> Fills(reg, CollectedAttrs(reg, t.pkg, t.name), given)
  {
    hide ResolveType, CollectedAttrs, ValidValue, IsRequired, AttributesOf, GetStr;
  }

  /** One of the allowed types, read from the edge type's package, is met. */
  predicate SideAllowed(reg: Registry, targetType: string, allowed: Value, pkg: Option<string>) {
    exists a | a in OneOrMany(allowed) :: TypeSatisfies(reg, targetType, a, pkg)
  }

  /** One end of an edge: it must resolve to a live node of an allowed type. */
  function ValidateSide(reg: Registry, s: Objects, payload: Value, edef: Value, side: string, allowedKey: string, tref: string): Result<()> {
    var reference :- OrErr(GetStr(payload, side), "edge needs both sides");
    var (kind, target) :- OrErr(ResolveRef(s, reference), "edge side does not resolve");
    if kind != "node" then Err("edge must reference a node")
    else
      var allowed :- OrErr(Get(edef, allowedKey), "edge type missing sides");
      if SideAllowed(reg, GetStr(target.content, "type").GetOr(""), allowed, PackageIn(tref)) then Ok(())
      else Err("edge side type violates its domain or range")
  }

  function ValidateEdge(reg: Registry, s: Objects, payload: Value): Result<()> {
    var tref :- OrErr(GetStr(payload, "type"), "edge needs a type");
    var edef :- OrErr(ResolveEdgeType(reg, tref), "edge type does not resolve");
    var _ :- ValidateSide(reg, s, payload, edef, "from", "domain", tref);
    ValidateSide(reg, s, payload, edef, "to", "range", tref)
  }

  function ValidateClassification(reg: Registry, s: Objects, payload: Value): Result<()> {
    var subject :- OrErr(GetStr(payload, "subject"), "classification needs subject");
    var _ :- OrErr(ResolveRef(s, subject), "classification subject does not resolve");
    var term :- OrErr(GetStr(payload, "term"), "classification needs term");
    if TermExists(reg, term) then Ok(()) else Err("term resolves to no taxonomy term")
  }

  function ValidatePayload(reg: Registry, s: Objects, kind: string, payload: Value): Result<()> {
    if kind == "node" then ValidateNode(reg, payload)
    else if kind == "edge" then ValidateEdge(reg, s, payload)
    else if kind == "classification" then ValidateClassification(reg, s, payload)
    else if kind == "document" then
      var _ :- OrErr(GetStr(payload, "content_hash"), "document needs content_hash");
      Ok(())
    else Err("unknown object kind")
  }

  // ---------------------------------------------------------------- operations

  datatype Touched = Touched(verb: string, payload: Value)

  /** The working copy of a changeset under way. */
  datatype Working = Working(objects: Objects, created: seq<Value>, touched: seq<Touched>)

  lemma OnlyKey(keys: set<string>)
    requires |keys| == 1
    ensures exists k :: k in keys && keys == {k}
  {
    var k :| k in keys;
    assert |keys - {k}| == 0;
    assert keys == {k};
  }

  /** An operation is a map from its verb to its payload. */
  function ParseOp(op: Value): Result<Touched> {
    if !op.Map? then Err("operation must be a map")
    else if |op.m.Keys| == 0 then Err("empty operation")
    else if |op.m.Keys| > 1 then Err("operation has more than one verb")
    else
      OnlyKey(op.m.Keys);
      var k :| k in op.m.Keys && op.m.Keys == {k};
      Ok(Touched(k, op.m[k]))
  }

  lemma ParsesSingle(verb: string, payload: Value)
    ensures ParseOp(Map(map[verb := payload])) == Ok(Touched(verb, payload))
  {
    assert Map(map[verb := payload]).m.Keys == {verb};
  }

  /** What redaction leaves of an object: kind, id and provenance. */
  function Envelope(kind: string, id: string, content: Value): Value {
    var m := map["kind" := Str(kind), "id" := Str(id)];
    Map(match Get(content, "provenance") case None => m case Some(p) => m["provenance" := p])
  }

  /** The live object at `key`, provided `prior` is its revision. */
  function Current(s: Objects, key: Key, prior: string): Result<Obj> {
    if key !in s then Err("unknown object")
    else if s[key].deleted || s[key].rev != prior then Err("prior-revision mismatch")
    else Ok(s[key])
  }

  function NewObject(sha: Sha, content: Value): Obj {
    Obj(content, RevisionHash(sha, content), false, false)
  }

  function Create(sha: Sha, reg: Registry, s: Objects, key: Key, payload: Value): Result<Objects> {
    if key in s then Err("create of existing object")
    else
      var _ :- ValidatePayload(reg, s, key.0, payload);
      Ok(s[key := NewObject(sha, payload)])
  }

  function Update(sha: Sha, reg: Registry, s: Objects, key: Key, payload: Value): Result<Objects> {
    var prior :- OrErr(GetStr(payload, "prior"), "update needs prior");
    var _ :- Current(s, key, prior);
    var content := Remove(payload, "prior");
    var _ :- ValidatePayload(reg, s, key.0, content);
    Ok(s[key := NewObject(sha, content)])
  }

  function Delete(s: Objects, key: Key, payload: Value): Result<Objects> {
    var prior :- OrErr(GetStr(payload, "prior"), "delete needs prior");
    var current :- Current(s, key, prior);
    Ok(s[key := current.(deleted := true)])
  }

  function Redact(s: Objects, key: Key): Result<Objects> {
    if key !in s then Err("redaction of unknown object")
    else Ok(s[key := s[key].(content := Envelope(key.0, key.1, s[key].content), redacted := true)])
  }

  function ApplyVerb(sha: Sha, reg: Registry, s: Objects, verb: string, key: Key, payload: Value): Result<Objects> {
    if verb == "create" then Create(sha, reg, s, key, payload)
    else if verb == "update" then Update(sha, reg, s, key, payload)
    else if verb == "delete" then Delete(s, key, payload)
    else if verb == "redact-document" then Redact(s, key)
    else if verb == "redact-operation" then
      var _ :- OrErr(GetStr(payload, "target"), "redact-operation needs a target changeset hash");
      Ok(s)
    else Err("operation is not supported by this fold")
  }

  function KeyOf(payload: Value): Result<Key> {
    var kind :- OrErr(GetStr(payload, "kind"), "operation payload needs kind");
    var id :- OrErr(GetStr(payload, "id"), "operation payload needs id");
    Ok((kind, id))
  }

  function ApplyOp(sha: Sha, reg: Registry, w: Working, op: Value): Result<Working> {
    var t :- ParseOp(op);
    var key :- KeyOf(t.payload);
    var objects :- ApplyVerb(sha, reg, w.objects, t.verb, key, t.payload);
    Ok(Working(objects, if t.verb == "create" && key.0 == "edge" then w.created + [t.payload] else w.created, w.touched + [t]))
  }

  function ApplyOps(sha: Sha, reg: Registry, w: Working, ops: seq<Value>): Result<Working>
    decreases |ops|
  {
    if ops == [] then Ok(w)
    else
      var w' :- ApplyOp(sha, reg, w, ops[0]);
      ApplyOps(sha, reg, w', ops[1..])
  }

  lemma {:induction false} ApplyOpsAppend(sha: Sha, reg: Registry, w: Working, a: seq<Value>, b: seq<Value>)
    ensures ApplyOps(sha, reg, w, a + b) ==
            match ApplyOps(sha, reg, w, a)
            case Ok(w') => ApplyOps(sha, reg, w', b)
            case Err(e) => Err(e)
    decreases |a|
  {
    hide ApplyOp;
    if a == [] {
      assert a + b == b;
    } else {
      assert (a + b)[0] == a[0] && (a + b)[1..] == a[1..] + b;
      var step := ApplyOp(sha, reg, w, a[0]);
      if step.Ok? {
        ApplyOpsAppend(sha, reg, step.value, a[1..], b);
      }
    }
  }

  lemma OneOp(sha: Sha, reg: Registry, w: Working, op: Value)
    ensures ApplyOps(sha, reg, w, [op]) == ApplyOp(sha, reg, w, op)
  {
    hide ApplyOp;
    assert [op][0] == op && [op][1..] == [];
  }

  // ---------------------------------------------------------------- dangling references

  predicate SidesResolve(s: Objects, content: Value) {
    && ResolveRef(s, GetStr(content, "from").GetOr("")).Some?
    && ResolveRef(s, GetStr(content, "to").GetOr("")).Some?
  }

  /** Every live edge's endpoints are live. */
  predicate NoDangling(s: Objects) {
    forall k | k in s && LiveOfKind(s, k, "edge") :: SidesResolve(s, s[k].content)
  }

  // ---------------------------------------------------------------- validation rules

  /** The state a condition is evaluated against. */
  datatype Scene = Scene(reg: Registry, objects: Objects, created: seq<Value>, pkg: string)

  function EvalCondition(sc: Scene, objRef: string, obj: Value, cond: Value): Result<bool>
    decreases cond, 2, 0
  {
    if GetSeq(cond, "all").Some? then EvalAll(sc, objRef, obj, cond.m["all"].items)
    else if GetSeq(cond, "any").Some? then EvalAny(sc, objRef, obj, cond.m["any"].items)
    else if Get(cond, "not").Some? then
      var b :- EvalCondition(sc, objRef, obj, cond.m["not"]);
      Ok(!b)
    else if Get(cond, "edge").Some? then EvalEdge(sc, objRef, cond.m["edge"])
    else if GetStr(cond, "attr").Some? then Ok(EvalAttr(Get(AttributesOf(obj), GetStr(cond, "attr").value), cond))
    else Err("unrecognized condition")
  }

  function EvalAttr(value: Option<Value>, cond: Value): bool {
    match Get(cond, "present")
    case Some(Bool(present)) => value.Some? == present
    case _ =>
      match Get(cond, "equals")
      case Some(expected) => value == Some(expected)
      case None =>
        match GetSeq(cond, "in")
        case Some(options) => value.Some? && value.value in options
        case None => value.Some?
  }

  function EvalAll(sc: Scene, objRef: string, obj: Value, subs: seq<Value>): Result<bool>
    decreases subs, 1, 0
  {
    if subs == [] then Ok(true)
    else
      var b :- EvalCondition(sc, objRef, obj, subs[0]);
      if b then EvalAll(sc, objRef, obj, subs[1..]) else Ok(false)
  }

  function EvalAny(sc: Scene, objRef: string, obj: Value, subs: seq<Value>): Result<bool>
    decreases subs, 1, 0
  {
    if subs == [] then Ok(false)
    else
      var b :- EvalCondition(sc, objRef, obj, subs[0]);
      if b then Ok(true) else EvalAny(sc, objRef, obj, subs[1..])
  }

  predicate EdgeTypeMatches(candidate: string, etype: string, pkg: string) {
    var c, e := Bare(candidate), Bare(etype);
    c == e || c == pkg + "/" + e || (match RSplitOnce(c, '/') case Some((_, n)) => n == e case None => false)
  }

  function LiveEdges(s: Objects, keys: seq<Key>): seq<Value> {
    if keys == [] then []
    else (if LiveOfKind(s, keys[0], "edge") then [s[keys[0]].content] else []) + LiveEdges(s, keys[1..])
  }

  function EvalEdge(sc: Scene, objRef: string, edge: Value): Result<bool>
    decreases edge, 1, 0
  {
    var etype :- OrErr(GetStr(edge, "type"), "edge condition needs type");
    var direction :- OrErr(GetStr(edge, "direction"), "edge condition needs direction");
    var min := match Get(edge, "min") case Some(v) => AsNat(v).GetOr(1) case None => 1;
    var near, far := if direction == "out" then "from" else "to", if direction == "out" then "to" else "from";
    var candidates := if GetStr(edge, "within") == Some("changeset") then sc.created
                      else LiveEdges(sc.objects, InOrder(sc.objects.Keys));
    var count :- CountEdges(sc, objRef, edge, etype, near, far, candidates);
    Ok(count >= min)
  }

  function CountEdges(sc: Scene, objRef: string, edge: Value, etype: string, near: string, far: string, candidates: seq<Value>): Result<nat>
    decreases edge, 0, |candidates|
  {
    if candidates == [] then Ok(0)
    else
      var c := candidates[0];
      var counted :-
        if !EdgeTypeMatches(GetStr(c, "type").GetOr(""), etype, sc.pkg) || GetStr(c, near) != Some(objRef) then Ok(false)
        else if Get(edge, "target_where").None? then Ok(true)
        else
          var farRef := GetStr(c, far).GetOr("");
          match ResolveRef(sc.objects, farRef)
          case None => Ok(false)
          case Some((_, o)) => EvalCondition(sc, farRef, o.content, edge.m["target_where"]);
      var rest :- CountEdges(sc, objRef, edge, etype, near, far, candidates[1..]);
      Ok((if counted then 1 else 0) + rest)
  }

  function RuleVerbs(on: Value): seq<string> {
    match Get(on, "operation")
    case Some(v) => OneOrMany(v)
    case None => ["create", "update"]
  }

  /** One rule against one touched object. */
  function CheckTouched(sc: Scene, rule: Value, on: Value, onType: string, t: Touched): Result<()> {
    if GetStr(t.payload, "kind") != Some("node") || t.verb !in RuleVerbs(on) then Ok(())
    else if !TypeSatisfies(sc.reg, GetStr(t.payload, "type").GetOr(""), onType, Some(sc.pkg)) then Ok(())
    else
      var objRef := "node:" + GetStr(t.payload, "id").GetOr("");
      match ResolveRef(sc.objects, objRef)
      case None => Ok(())
      case Some((_, obj)) =>
        var applies :- match Get(on, "where")
                       case None => Ok(true)
                       case Some(cond) => EvalCondition(sc, objRef, obj.content, cond);
        if !applies then Ok(())
        else
          var require :- OrErr(Get(rule, "require"), "rule needs require");
          var holds :- EvalCondition(sc, objRef, obj.content, require);
          if holds then Ok(()) else Err("validation rule fails")
  }

  function CheckAllTouched(sc: Scene, rule: Value, on: Value, onType: string, touched: seq<Touched>): Result<()> {
    if touched == [] then Ok(())
    else
      var _ :- CheckTouched(sc, rule, on, onType, touched[0]);
      CheckAllTouched(sc, rule, on, onType, touched[1..])
  }

  function CheckRule(sc: Scene, rule: Value, touched: seq<Touched>): Result<()> {
    match Get(rule, "on")
    case None => Ok(())
    case Some(on) =>
      match GetStr(on, "type")
      case None => Ok(())
      case Some(onType) => CheckAllTouched(sc, rule, on, onType, touched)
  }

  /** Every rule of every package holds of the working state. */
  predicate RulesHold(reg: Registry, w: Working) {
    forall p | p in reg.packages :: reg.packages[p].rules.Seq? ==>
      forall rule | rule in reg.packages[p].rules.items ::
        CheckRule(Scene(reg, w.objects, w.created, p), rule, w.touched).Ok?
  }

  // ---------------------------------------------------------------- one changeset

  /** The stored hash, when there is one, recomputes; at most one parent. */
  function CheckHeader(sha: Sha, cs: Value): Result<seq<Value>> {
    var (computed, _) :- ChangesetHash(sha, cs);
    if GetStr(cs, "hash").Some? && GetStr(cs, "hash").value != computed then Err("changeset hash does not recompute")
    else
      var parents :- OrErr(GetSeq(cs, "parents"), "changeset needs parents");
      if |parents| > 1 then Err("merge changesets are not yet supported by this fold")
      else OrErr(GetSeq(cs, "operations"), "changeset needs an operations list")
  }

  function Finish(reg: Registry, w: Working): Result<Objects> {
    if !NoDangling(w.objects) then Err("edge has a dangling reference")
    else if !RulesHold(reg, w) then Err("validation rule fails")
    else Ok(w.objects)
  }

  /** The state after a changeset, or its rejection. */
  function Apply(sha: Sha, reg: Registry, s: Objects, cs: Value): Result<Objects> {
    var ops :- CheckHeader(sha, cs);
    var w :- ApplyOps(sha, reg, Working(s, [], []), ops);
    Finish(reg, w)
  }

  class State {
    var objects: Objects

    constructor ()
      ensures objects == map[]
    {
      objects := map[];
    }

    /** A rejected changeset leaves the state untouched. */
    method ApplyChangeset(sha: Sha, reg: Registry, cs: Value) returns (r: Result<()>)
      modifies this
      ensures Apply(sha, reg, old(objects), cs).Ok? ==> r.Ok? && objects == Apply(sha, reg, old(objects), cs).value
      ensures Apply(sha, reg, old(objects), cs).Err? ==>
                r == Err(Apply(sha, reg, old(objects), cs).error) && objects == old(objects)
    {
      hide ApplyOp, CheckHeader, Finish;
      var header := CheckHeader(sha, cs);
      if header.Err? {
        return Err(header.error);
      }
      var ops, working := header.value, Working(objects, [], []);
      assert ops[0..] == ops;
      for i := 0 to |ops|
        invariant objects == old(objects)
        invariant ApplyOps(sha, reg, Working(objects, [], []), ops) == ApplyOps(sha, reg, working, ops[i..])
      {
        var step := ApplyOp(sha, reg, working, ops[i]);
        assert ops[i..][1..] == ops[i + 1..];
        if step.Err? {
          return Err(step.error);
        }
        working := step.value;
      }
      var done := Finish(reg, working);
      if done.Err? {
        return Err(done.error);
      }
      objects := done.value;
      r := Ok(());
    }
  }
}
