/**
 * What an accepted operation met and what it leaves behind (crates/allod-core/src/fold.rs:127-292),
 * stated by the fields of the operation and of the object it names: revisions are compared and set,
 * nobody's write is lost, and nothing else changes.
 */
module Operations {
  import opened Text
  import opened Values
  import opened Hashing
  import opened Model
  import opened Objects
  import opened Registries
  import opened Fold

  /** The payload names an object of that kind and id. */
  predicate About(payload: Value, k: Key) {
    GetStr(payload, "kind") == Some(k.0) && GetStr(payload, "id") == Some(k.1)
  }

  lemma AboutKey(payload: Value, k: Key)
    requires About(payload, k)
    ensures KeyOf(payload) == Ok(k)
  {
  }

  // ---------------------------------------------------------------- one operation

  lemma OneVerb(sha: Sha, reg: Registry, w: Working, verb: string, payload: Value, k: Key)
    requires About(payload, k)
    ensures var r, step := ApplyOp(sha, reg, w, Map(map[verb := payload])), ApplyVerb(sha, reg, w.objects, verb, k, payload);
            && (r.Ok? <==> step.Ok?)
            && (r.Ok? ==> r.value.objects == step.value && r.value.touched == w.touched + [Touched(verb, payload)]
                          && r.value.created == w.created + if verb == "create" && k.0 == "edge" then [payload] else [])
  {
    AboutKey(payload, k);
    ParsesSingle(verb, payload);
    hide ParseOp, KeyOf, ApplyVerb;
    assert w.created + [] == w.created;
  }

  lemma Verbs()
    ensures "create" != "update" && "create" != "delete" && "create" != "redact-document" && "create" != "redact-operation"
    ensures "update" != "delete" && "update" != "redact-document" && "update" != "redact-operation"
    ensures "delete" != "redact-document" && "delete" != "redact-operation" && "redact-document" != "redact-operation"
  {
    assert |"create"| == 6 && |"update"| == 6 && |"delete"| == 6 && |"redact-document"| == 15 && |"redact-operation"| == 16;
    assert "create"[0] != "update"[0] && "create"[0] != "delete"[0] && "update"[0] != "delete"[0];
  }

  /** A create is accepted exactly when its key was never used and its payload is valid; the object is then the payload. */
  lemma CreateMeets(sha: Sha, reg: Registry, w: Working, payload: Value, k: Key)
    requires About(payload, k)
    ensures var r := ApplyOp(sha, reg, w, Map(map["create" := payload]));
            && (r.Ok? <==> k !in w.objects && ValidatePayload(reg, w.objects, k.0, payload).Ok?)
            && (r.Ok? ==> r.value.objects == w.objects[k := Obj(payload, HashValue(sha, "object", Remove(payload, "rev")), false, false)])
  {
    OneVerb(sha, reg, w, "create", payload, k);
    hide ApplyOp, ValidatePayload, Remove, HashValue, Update, Delete, Redact;
  }

  /**
   * An update is accepted exactly when the object is there, not deleted, and at the revision stated as
   * `prior`, and the payload without `prior` is valid. That payload and its hash are the object's
   * content and revision from then on.
   */
  lemma UpdateMeets(sha: Sha, reg: Registry, w: Working, payload: Value, k: Key)
    requires About(payload, k)
    ensures var r, content := ApplyOp(sha, reg, w, Map(map["update" := payload])), Remove(payload, "prior");
            && (r.Ok? <==> && k in w.objects && !w.objects[k].deleted && GetStr(payload, "prior") == Some(w.objects[k].rev)
                           && ValidatePayload(reg, w.objects, k.0, content).Ok?)
            && (r.Ok? ==> r.value.objects == w.objects[k := Obj(content, HashValue(sha, "object", Remove(content, "rev")), false, false)])
  {
    OneVerb(sha, reg, w, "update", payload, k);
    Verbs();
    hide ApplyOp, ValidatePayload, Remove, HashValue, Create, Delete, Redact, GetStr;
  }

  /**
   * A delete is accepted exactly when the object is there, not deleted yet, and at the revision stated
   * as `prior`. Content, revision and redaction stay.
   */
  lemma DeleteMeets(sha: Sha, reg: Registry, w: Working, payload: Value, k: Key)
    requires About(payload, k)
    ensures var r := ApplyOp(sha, reg, w, Map(map["delete" := payload]));
            && (r.Ok? <==> k in w.objects && !w.objects[k].deleted && GetStr(payload, "prior") == Some(w.objects[k].rev))
            && (r.Ok? ==> var o := w.objects[k]; r.value.objects == w.objects[k := Obj(o.content, o.rev, true, o.redacted)])
  {
    OneVerb(sha, reg, w, "delete", payload, k);
    Verbs();
    hide ApplyOp, Create, Update, Redact, GetStr;
  }

  /** A redaction needs no revision, reaches deleted objects too, and leaves kind, id and provenance of the content. */
  lemma RedactionMeets(sha: Sha, reg: Registry, w: Working, payload: Value, k: Key)
    requires About(payload, k)
    ensures var r := ApplyOp(sha, reg, w, Map(map["redact-document" := payload]));
            && (r.Ok? <==> k in w.objects)
            && (r.Ok? ==> && r.value.objects.Keys == w.objects.Keys
                          && (forall j :: j in w.objects && j != k ==> r.value.objects[j] == w.objects[j])
                          && var o, o' := w.objects[k], r.value.objects[k];
                             && o'.rev == o.rev && o'.deleted == o.deleted && o'.redacted
                             && About(o'.content, k) && Get(o'.content, "provenance") == Get(o.content, "provenance")
                             && forall f :: Get(o'.content, f).Some? ==> f in {"kind", "id", "provenance"})
  {
    OneVerb(sha, reg, w, "redact-document", payload, k);
    Verbs();
    hide ApplyOp, Create, Update, Delete;
  }

  /** Redacting an operation only asks that a changeset is named; any other verb is refused. */
  lemma OtherVerbs(sha: Sha, reg: Registry, w: Working, verb: string, payload: Value, k: Key)
    requires About(payload, k) && verb !in {"create", "update", "delete", "redact-document"}
    ensures var r := ApplyOp(sha, reg, w, Map(map[verb := payload]));
            && (r.Ok? <==> verb == "redact-operation" && GetStr(payload, "target").Some?)
            && (r.Ok? ==> r.value.objects == w.objects)
  {
    OneVerb(sha, reg, w, verb, payload, k);
    Verbs();
    hide ApplyOp, Create, Update, Delete, Redact, GetStr;
  }

  /** An operation that is accepted is a map of one verb to a payload that names an object. */
  lemma AcceptedNames(sha: Sha, reg: Registry, w: Working, op: Value) returns (verb: string, payload: Value, k: Key)
    requires ApplyOp(sha, reg, w, op).Ok?
    ensures op == Map(map[verb := payload]) && About(payload, k)
  {
    hide ApplyVerb;
    var t := ParseOp(op).value;
    assert op.m == map[t.verb := t.payload];
    verb, payload, k := t.verb, t.payload, KeyOf(t.payload).value;
  }

  // ---------------------------------------------------------------- every operation of a changeset

  /** The working state the i-th operation meets, and what it makes of it. */
  lemma {:induction false} Meets(sha: Sha, reg: Registry, w: Working, ops: seq<Value>, i: nat) returns (v: Working)
    requires ApplyOps(sha, reg, w, ops).Ok? && i < |ops|
    ensures ApplyOps(sha, reg, w, ops[..i]) == Ok(v) && ApplyOp(sha, reg, v, ops[i]).Ok?
    ensures ApplyOps(sha, reg, ApplyOp(sha, reg, v, ops[i]).value, ops[i + 1..]) == ApplyOps(sha, reg, w, ops)
  {
    hide ApplyOp;
    assert ops == ops[..i] + ops[i..] && ops[i..][0] == ops[i] && ops[i..][1..] == ops[i + 1..];
    ApplyOpsAppend(sha, reg, w, ops[..i], ops[i..]);
    v := ApplyOps(sha, reg, w, ops[..i]).value;
  }

  /**
   * Every update and every delete of an accepted changeset names an object that is there and not deleted
   * when the operation's turn comes, and states that object's revision.
   */
  lemma WritesAreCurrent(sha: Sha, reg: Registry, s: Objects, cs: Value, i: nat, verb: string, payload: Value, k: Key) returns (v: Working)
    requires Apply(sha, reg, s, cs).Ok? && i < |OpsOf(cs)|
    requires OpsOf(cs)[i] == Map(map[verb := payload]) && verb in {"update", "delete"} && About(payload, k)
    ensures ApplyOps(sha, reg, Working(s, [], []), OpsOf(cs)[..i]) == Ok(v)
    ensures k in v.objects && !v.objects[k].deleted && GetStr(payload, "prior") == Some(v.objects[k].rev)
  {
    hide ApplyOp, GetStr, ChangesetHash, Finish, About;
    v := Meets(sha, reg, Working(s, [], []), OpsOf(cs), i);
    if verb == "update" {
      UpdateMeets(sha, reg, v, payload, k);
    } else {
      DeleteMeets(sha, reg, v, payload, k);
    }
  }

  /** No operation of the list is about the object. */
  ghost predicate Silent(ops: seq<Value>, k: Key) {
    forall verb, payload :: Map(map[verb := payload]) in ops ==> !About(payload, k)
  }

  lemma OpKeepsOthers(sha: Sha, reg: Registry, w: Working, op: Value, k: Key)
    requires ApplyOp(sha, reg, w, op).Ok? && forall verb, payload :: op == Map(map[verb := payload]) ==> !About(payload, k)
    ensures var t := ApplyOp(sha, reg, w, op).value.objects; (k in t <==> k in w.objects) && (k in t ==> t[k] == w.objects[k])
  {
    hide ApplyOp, About;
    hide ValidatePayload, Remove, HashValue, GetStr;
    var verb, payload, j := AcceptedNames(sha, reg, w, op);
    assert j != k;
    if verb == "create" {
      CreateMeets(sha, reg, w, payload, j);
    } else if verb == "update" {
      UpdateMeets(sha, reg, w, payload, j);
    } else if verb == "delete" {
      DeleteMeets(sha, reg, w, payload, j);
    } else if verb == "redact-document" {
      RedactionMeets(sha, reg, w, payload, j);
    } else {
      OtherVerbs(sha, reg, w, verb, payload, j);
    }
  }

  /** What no operation is about stays as it is. */
  lemma {:induction false} SilentKeeps(sha: Sha, reg: Registry, w: Working, ops: seq<Value>, k: Key)
    requires ApplyOps(sha, reg, w, ops).Ok? && Silent(ops, k)
    ensures var t := ApplyOps(sha, reg, w, ops).value.objects; (k in t <==> k in w.objects) && (k in t ==> t[k] == w.objects[k])
    decreases |ops|
  {
    hide ApplyOp, About;
    if ops == [] {
    } else {
      assert ops[0] in ops;
      OpKeepsOthers(sha, reg, w, ops[0], k);
      SilentKeeps(sha, reg, ApplyOp(sha, reg, w, ops[0]).value, ops[1..], k);
    }
  }

  /**
   * A changeset whose first word on an object is an update or a delete that states another revision
   * than the object has, or is about an object that is deleted or was never there, is rejected.
   */
  lemma StaleIsRejected(sha: Sha, reg: Registry, s: Objects, cs: Value, i: nat, verb: string, payload: Value, k: Key)
    requires i < |OpsOf(cs)| && OpsOf(cs)[i] == Map(map[verb := payload]) && verb in {"update", "delete"} && About(payload, k)
    requires Silent(OpsOf(cs)[..i], k)
    requires k !in s || s[k].deleted || GetStr(payload, "prior") != Some(s[k].rev)
    ensures Apply(sha, reg, s, cs).Err?
  {
    hide Apply, ApplyOps, GetStr, About, Silent;
    if Apply(sha, reg, s, cs).Ok? {
      var v := WritesAreCurrent(sha, reg, s, cs, i, verb, payload, k);
      SilentKeeps(sha, reg, Working(s, [], []), OpsOf(cs)[..i], k);
      assert false;
    }
  }

  /**
   * Of two changesets that write the same object and state the same prior revision, only one can be
   * accepted, unless the first one leaves the object live at that very revision.
   */
  lemma NoLostUpdate(sha: Sha, first: Registry, second: Registry, s: Objects, a: Value, b: Value, i: nat, verb: string, payload: Value, k: Key, prior: string)
    requires Apply(sha, first, s, a).Ok?
    requires var t := Apply(sha, first, s, a).value; k !in t || t[k].deleted || t[k].rev != prior
    requires i < |OpsOf(b)| && OpsOf(b)[i] == Map(map[verb := payload]) && verb in {"update", "delete"} && About(payload, k)
    requires Silent(OpsOf(b)[..i], k) && GetStr(payload, "prior") == Some(prior)
    ensures Apply(sha, second, Apply(sha, first, s, a).value, b).Err?
  {
    hide Apply, About, Silent;
    StaleIsRejected(sha, second, Apply(sha, first, s, a).value, b, i, verb, payload, k);
  }

  // ---------------------------------------------------------------- the changeset as a whole

  /** The header the fold asks for: the stored hash, when there is one, is the changeset's own, and there is at most one parent. */
  ghost predicate GoodHeader(sha: Sha, cs: Value) {
    && ChangesetHash(sha, cs).Ok? && GetSeq(cs, "operations").Some?
    && (GetStr(cs, "hash").Some? ==> GetStr(cs, "hash").value == ChangesetHash(sha, cs).value.0)
    && GetSeq(cs, "parents").Some? && |GetSeq(cs, "parents").value| <= 1
  }

  /** Both ends of every live edge are live objects. */
  ghost predicate EndsLive(s: Objects) {
    forall k, side :: k in s && k.0 == "edge" && !s[k].deleted && side in {"from", "to"} ==>
      exists end: Key :: end in s && !s[end].deleted && SplitOnce(GetStr(s[k].content, side).GetOr(""), ':') == Some(end)
  }

  lemma EndsLiveIs(s: Objects)
    ensures NoDangling(s) <==> EndsLive(s)
  {
    hide SplitOnce, GetStr;
    forall k | k in s && k.0 == "edge" && !s[k].deleted
      ensures SidesResolve(s, s[k].content) <==>
              forall side :: side in {"from", "to"} ==>
                exists end: Key :: end in s && !s[end].deleted && SplitOnce(GetStr(s[k].content, side).GetOr(""), ':') == Some(end)
    {
      ResolvesIs(s, GetStr(s[k].content, "from").GetOr(""));
      ResolvesIs(s, GetStr(s[k].content, "to").GetOr(""));
      hide ResolveRef;
    }
    hide SidesResolve;
    if NoDangling(s) {
      forall k, side | k in s && k.0 == "edge" && !s[k].deleted && side in {"from", "to"}
        ensures exists end: Key :: end in s && !s[end].deleted && SplitOnce(GetStr(s[k].content, side).GetOr(""), ':') == Some(end)
      {
        assert LiveOfKind(s, k, "edge") && SidesResolve(s, s[k].content);
      }
    }
  }

  lemma ResolvesIs(s: Objects, reference: string)
    ensures ResolveRef(s, reference).Some? <==> exists end: Key :: end in s && !s[end].deleted && SplitOnce(reference, ':') == Some(end)
  {
    hide SplitOnce;
  }

  /**
   * A changeset is accepted exactly when its header is good, its operations are accepted one after the
   * other, no live edge ends in nothing, and the validation rules hold. The state is then the last
   * operation's.
   */
  lemma AppliesExactly(sha: Sha, reg: Registry, s: Objects, cs: Value, t: Objects)
    ensures Apply(sha, reg, s, cs) == Ok(t) <==>
            && GoodHeader(sha, cs) && ApplyOps(sha, reg, Working(s, [], []), OpsOf(cs)).Ok?
            && var w := ApplyOps(sha, reg, Working(s, [], []), OpsOf(cs)).value;
               w.objects == t && EndsLive(t) && RulesHold(reg, w)
  {
    hide ApplyOps, ChangesetHash, NoDangling, RulesHold, EndsLive, GetStr, GetSeq;
    assert CheckHeader(sha, cs).Ok? <==> GoodHeader(sha, cs);
    if GoodHeader(sha, cs) {
      assert CheckHeader(sha, cs).value == OpsOf(cs);
    }
    hide CheckHeader, GoodHeader;
    EndsLiveIs(t);
    if ApplyOps(sha, reg, Working(s, [], []), OpsOf(cs)).Ok? {
      EndsLiveIs(ApplyOps(sha, reg, Working(s, [], []), OpsOf(cs)).value.objects);
    }
  }

  /** A changeset whose stored hash is not its own, or that merges two parents, is rejected whatever it does. */
  lemma BadHeaderIsRejected(sha: Sha, reg: Registry, s: Objects, cs: Value)
    requires ChangesetHash(sha, cs).Ok?
    requires (GetStr(cs, "hash").Some? && GetStr(cs, "hash").value != ChangesetHash(sha, cs).value.0)
          || GetSeq(cs, "parents").None? || |GetSeq(cs, "parents").value| > 1
    ensures Apply(sha, reg, s, cs).Err?
  {
    hide ApplyOps, ChangesetHash, Finish, GetStr, GetSeq;
  }

  // ---------------------------------------------------------------- what the rules get to see

  /** The payloads of the edges the operations create, in order. */
  function NewEdges(ops: seq<Value>): seq<Value> {
    if ops == [] then []
    else
      (match Get(ops[0], "create")
       case Some(payload) => if GetStr(payload, "kind") == Some("edge") then [payload] else []
       case None => []) + NewEdges(ops[1..])
  }

  /** Every operation is remembered as it stands, and every created edge. */
  lemma {:induction false} Remembered(sha: Sha, reg: Registry, w: Working, ops: seq<Value>)
    requires ApplyOps(sha, reg, w, ops).Ok?
    ensures var w' := ApplyOps(sha, reg, w, ops).value;
            && |w'.touched| == |w.touched| + |ops| && w.touched <= w'.touched
            && (forall i :: 0 <= i < |ops| ==> ops[i] == Map(map[w'.touched[|w.touched| + i].verb := w'.touched[|w.touched| + i].payload]))
            && w'.created == w.created + NewEdges(ops)
    decreases |ops|
  {
    hide ApplyOp, GetStr;
    if ops == [] {
    } else {
      var verb, payload, k := AcceptedNames(sha, reg, w, ops[0]);
      OneVerb(sha, reg, w, verb, payload, k);
      var next := ApplyOp(sha, reg, w, ops[0]).value;
      Remembered(sha, reg, next, ops[1..]);
      Append(w.created, if verb == "create" && k.0 == "edge" then [payload] else [], NewEdges(ops[1..]));
      assert Get(ops[0], "create") == if verb == "create" then Some(payload) else None;
    }
  }
}
