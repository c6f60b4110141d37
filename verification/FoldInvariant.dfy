/** What every run of the fold keeps, whatever registries and changesets it is given. */
module FoldInvariant {
  import opened Text
  import opened Values
  import opened Hashing
  import opened Model
  import opened Objects
  import opened Registries
  import opened Fold

  // ---------------------------------------------------------------- the invariant

  ghost predicate Names(k: Key, content: Value) {
    GetStr(content, "kind") == Some(k.0) && GetStr(content, "id") == Some(k.1)
  }

  /** The field every accepted payload of a kind carries, and no redacted envelope does. */
  ghost predicate Shaped(kind: string, content: Value) {
    (kind == "node" && GetStr(content, "type").Some?)
    || (kind == "edge" && GetStr(content, "type").Some?)
    || (kind == "classification" && GetStr(content, "subject").Some?)
    || (kind == "document" && GetStr(content, "content_hash").Some?)
  }

  /** `rev` is the revision hash of some accepted content of this object. */
  ghost predicate Recorded(sha: Sha, k: Key, rev: string) {
    exists c :: Names(k, c) && Shaped(k.0, c) && rev == RevisionHash(sha, c)
  }

  ghost predicate ObjectOk(sha: Sha, k: Key, o: Obj) {
    && Names(k, o.content)
    && Recorded(sha, k, o.rev)
    && (!o.redacted ==> o.rev == RevisionHash(sha, o.content) && Shaped(k.0, o.content))
    && (o.redacted ==> forall f :: Get(o.content, f).Some? ==> f in {"kind", "id", "provenance"})
  }

  ghost predicate NodeRef(content: Value, side: string) {
    GetStr(content, side).Some? && SplitOnce(GetStr(content, side).value, ':').Some?
    && SplitOnce(GetStr(content, side).value, ':').value.0 == "node"
  }

  ghost predicate EdgeOk(k: Key, o: Obj) {
    k.0 == "edge" && !o.deleted && !o.redacted ==> NodeRef(o.content, "from") && NodeRef(o.content, "to")
  }

  /** What also holds in the middle of a changeset, before dangling references are checked. */
  ghost predicate Midway(sha: Sha, s: Objects) {
    forall k :: k in s ==> ObjectOk(sha, k, s[k]) && EdgeOk(k, s[k])
  }

  ghost predicate LiveNode(s: Objects, content: Value, side: string) {
    && GetStr(content, side).Some?
    && ResolveRef(s, GetStr(content, side).value).Some?
    && ResolveRef(s, GetStr(content, side).value).value.0 == "node"
  }

  /** Every live edge is unredacted and runs between live nodes. */
  ghost predicate EdgesJoinNodes(s: Objects) {
    forall k :: k in s && LiveOfKind(s, k, "edge") ==>
      !s[k].redacted && LiveNode(s, s[k].content, "from") && LiveNode(s, s[k].content, "to")
  }

  ghost predicate Inv(sha: Sha, s: Objects) {
    Midway(sha, s) && EdgesJoinNodes(s)
  }

  /** Keys never vanish; a deleted object stays deleted and keeps its revision. */
  ghost predicate Evolves(s: Objects, t: Objects) {
    forall k :: k in s ==> k in t && (s[k].deleted ==> t[k].deleted && t[k].rev == s[k].rev)
  }

  lemma EvolvesTransitive(s: Objects, t: Objects, u: Objects)
    requires Evolves(s, t) && Evolves(t, u)
    ensures Evolves(s, u)
  {
  }

  // ---------------------------------------------------------------- payloads

  lemma ValidatedSide(reg: Registry, s: Objects, payload: Value, edef: Value, side: string, allowedKey: string, tref: string)
    requires ValidateSide(reg, s, payload, edef, side, allowedKey, tref).Ok?
    ensures NodeRef(payload, side)
  {
  }

  lemma Validated(reg: Registry, s: Objects, kind: string, payload: Value)
    requires ValidatePayload(reg, s, kind, payload).Ok?
    ensures Shaped(kind, payload)
    ensures kind == "edge" ==> NodeRef(payload, "from") && NodeRef(payload, "to")
  {
    hide CollectedAttrs, ResolveType, ResolveEdgeType, ValidateSide;
    if kind == "edge" {
      var tref := GetStr(payload, "type").value;
      var edef := ResolveEdgeType(reg, tref).value;
      ValidatedSide(reg, s, payload, edef, "from", "domain", tref);
      ValidatedSide(reg, s, payload, edef, "to", "range", tref);
    }
  }

  lemma RemoveKeepsFields(payload: Value, key: string, f: string)
    requires f != key
    ensures Get(Remove(payload, key), f) == Get(payload, f)
  {
  }

  lemma NewObjectOk(sha: Sha, reg: Registry, s: Objects, k: Key, content: Value)
    requires Names(k, content)
    requires ValidatePayload(reg, s, k.0, content).Ok?
    ensures ObjectOk(sha, k, NewObject(sha, content)) && EdgeOk(k, NewObject(sha, content))
  {
    Validated(reg, s, k.0, content);
    hide ValidatePayload, RevisionHash, Shaped;
    assert Recorded(sha, k, RevisionHash(sha, content));
  }

  lemma EnvelopeNames(k: Key, content: Value)
    ensures Names(k, Envelope(k.0, k.1, content))
    ensures forall f :: Get(Envelope(k.0, k.1, content), f).Some? ==> f in {"kind", "id", "provenance"}
  {
  }

  // ---------------------------------------------------------------- operations

  lemma CreateKeeps(sha: Sha, reg: Registry, s: Objects, k: Key, payload: Value)
    requires Midway(sha, s) && Names(k, payload)
    requires Create(sha, reg, s, k, payload).Ok?
    ensures Midway(sha, Create(sha, reg, s, k, payload).value) && Evolves(s, Create(sha, reg, s, k, payload).value)
  {
    hide ValidatePayload, ObjectOk, EdgeOk, NewObject;
    NewObjectOk(sha, reg, s, k, payload);
  }

  lemma UpdateKeeps(sha: Sha, reg: Registry, s: Objects, k: Key, payload: Value)
    requires Midway(sha, s) && Names(k, payload)
    requires Update(sha, reg, s, k, payload).Ok?
    ensures Midway(sha, Update(sha, reg, s, k, payload).value) && Evolves(s, Update(sha, reg, s, k, payload).value)
  {
    hide ValidatePayload, ObjectOk, EdgeOk, NewObject, Remove;
    var content := Remove(payload, "prior");
    RemoveKeepsFields(payload, "prior", "kind");
    RemoveKeepsFields(payload, "prior", "id");
    assert Names(k, content);
    hide Names;
    NewObjectOk(sha, reg, s, k, content);
  }

  lemma DeleteKeeps(sha: Sha, s: Objects, k: Key, payload: Value)
    requires Midway(sha, s)
    requires Delete(s, k, payload).Ok?
    ensures Midway(sha, Delete(s, k, payload).value) && Evolves(s, Delete(s, k, payload).value)
  {
    hide Recorded, Names, Shaped, NodeRef, RevisionHash;
    assert ObjectOk(sha, k, s[k]);
    assert ObjectOk(sha, k, s[k].(deleted := true)) && EdgeOk(k, s[k].(deleted := true));
    hide ObjectOk, EdgeOk;
  }

  lemma RedactKeeps(sha: Sha, s: Objects, k: Key)
    requires Midway(sha, s)
    requires Redact(s, k).Ok?
    ensures Midway(sha, Redact(s, k).value) && Evolves(s, Redact(s, k).value)
  {
    hide Recorded, Names, Shaped, NodeRef, RevisionHash, Envelope;
    assert ObjectOk(sha, k, s[k]);
    EnvelopeNames(k, s[k].content);
    var o := s[k].(content := Envelope(k.0, k.1, s[k].content), redacted := true);
    assert ObjectOk(sha, k, o) && EdgeOk(k, o);
    hide ObjectOk, EdgeOk;
  }

  lemma VerbKeeps(sha: Sha, reg: Registry, s: Objects, verb: string, k: Key, payload: Value)
    requires Midway(sha, s) && Names(k, payload)
    requires ApplyVerb(sha, reg, s, verb, k, payload).Ok?
    ensures Midway(sha, ApplyVerb(sha, reg, s, verb, k, payload).value) && Evolves(s, ApplyVerb(sha, reg, s, verb, k, payload).value)
  {
    hide Midway, Create, Update, Delete, Redact, Names;
    if verb == "create" {
      CreateKeeps(sha, reg, s, k, payload);
    } else if verb == "update" {
      UpdateKeeps(sha, reg, s, k, payload);
    } else if verb == "delete" {
      DeleteKeeps(sha, s, k, payload);
    } else if verb == "redact-document" {
      RedactKeeps(sha, s, k);
    }
  }

  lemma {:induction false} OpsKeep(sha: Sha, reg: Registry, w: Working, ops: seq<Value>)
    requires Midway(sha, w.objects)
    requires ApplyOps(sha, reg, w, ops).Ok?
    ensures Midway(sha, ApplyOps(sha, reg, w, ops).value.objects)
    ensures Evolves(w.objects, ApplyOps(sha, reg, w, ops).value.objects)
    decreases |ops|
  {
    hide Midway, ApplyVerb, ParseOp;
    if ops == [] {
    } else {
      var t := ParseOp(ops[0]).value;
      var k := KeyOf(t.payload).value;
      VerbKeeps(sha, reg, w.objects, t.verb, k, t.payload);
      var w' := ApplyOp(sha, reg, w, ops[0]).value;
      OpsKeep(sha, reg, w', ops[1..]);
      EvolvesTransitive(w.objects, w'.objects, ApplyOps(sha, reg, w, ops).value.objects);
    }
  }

  // ---------------------------------------------------------------- whole changesets

  lemma EmptyRefDangles(s: Objects)
    ensures ResolveRef(s, "") == None
  {
  }

  lemma SidesOfLiveEdge(sha: Sha, s: Objects, k: Key)
    requires Midway(sha, s) && NoDangling(s)
    requires k in s && LiveOfKind(s, k, "edge")
    ensures !s[k].redacted && LiveNode(s, s[k].content, "from") && LiveNode(s, s[k].content, "to")
  {
    assert ObjectOk(sha, k, s[k]) && EdgeOk(k, s[k]) && SidesResolve(s, s[k].content);
    hide Recorded, RevisionHash, Shaped, Names;
    EmptyRefDangles(s);
    assert GetStr(s[k].content, "from").Some?;
  }

  /** Redacting an edge that stays live empties its ends, and the changeset is rejected as dangling. */
  lemma RedactedLiveEdgeRejected(sha: Sha, reg: Registry, w: Working, k: Key)
    requires Midway(sha, w.objects)
    requires k in w.objects && LiveOfKind(w.objects, k, "edge") && w.objects[k].redacted
    ensures Finish(reg, w).Err?
  {
    hide RulesHold, Midway;
    if NoDangling(w.objects) {
      SidesOfLiveEdge(sha, w.objects, k);
      assert false;
    }
  }

  /** A rejected changeset changes nothing by definition of the step; an accepted one keeps the invariant. */
  lemma ApplyKeepsInv(sha: Sha, reg: Registry, s: Objects, cs: Value)
    requires Inv(sha, s)
    requires Apply(sha, reg, s, cs).Ok?
    ensures Inv(sha, Apply(sha, reg, s, cs).value)
    ensures Evolves(s, Apply(sha, reg, s, cs).value)
  {
    hide CheckHeader, RulesHold, Midway, ApplyOp;
    var ops := CheckHeader(sha, cs).value;
    OpsKeep(sha, reg, Working(s, [], []), ops);
    var t := ApplyOps(sha, reg, Working(s, [], []), ops).value.objects;
    forall k | k in t && LiveOfKind(t, k, "edge")
      ensures !t[k].redacted && LiveNode(t, t[k].content, "from") && LiveNode(t, t[k].content, "to")
    {
      SidesOfLiveEdge(sha, t, k);
    }
  }

  // ---------------------------------------------------------------- runs

  datatype Step = Step(reg: Registry, cs: Value)

  /** The state after a run: a rejected changeset is skipped. */
  function RunFrom(sha: Sha, s: Objects, steps: seq<Step>): Objects {
    if steps == [] then s
    else
      var before, last := RunFrom(sha, s, steps[..|steps| - 1]), steps[|steps| - 1];
      match Apply(sha, last.reg, before, last.cs)
      case Ok(t) => t
      case Err(_) => before
  }

  /** From the empty state, under any registries and changesets, the invariant holds after every step. */
  lemma {:induction false} RunKeepsInv(sha: Sha, steps: seq<Step>)
    ensures Inv(sha, RunFrom(sha, map[], steps))
  {
    hide Apply;
    if steps == [] {
    } else {
      RunKeepsInv(sha, steps[..|steps| - 1]);
      var before, last := RunFrom(sha, map[], steps[..|steps| - 1]), steps[|steps| - 1];
      hide Inv;
      if Apply(sha, last.reg, before, last.cs).Ok? {
        ApplyKeepsInv(sha, last.reg, before, last.cs);
      }
    }
  }

  /** Later states keep every key, every tombstone and every tombstone's revision of earlier ones. */
  lemma {:induction false} RunEvolves(sha: Sha, steps: seq<Step>, n: nat)
    requires n <= |steps|
    ensures Evolves(RunFrom(sha, map[], steps[..n]), RunFrom(sha, map[], steps))
    decreases |steps|
  {
    hide Apply, Inv;
    if n == |steps| {
      assert steps[..n] == steps;
    } else {
      var front := steps[..|steps| - 1];
      RunEvolves(sha, front, n);
      assert front[..n] == steps[..n];
      var before, last := RunFrom(sha, map[], front), steps[|steps| - 1];
      RunKeepsInv(sha, front);
      if Apply(sha, last.reg, before, last.cs).Ok? {
        ApplyKeepsInv(sha, last.reg, before, last.cs);
        EvolvesTransitive(RunFrom(sha, map[], steps[..n]), before, RunFrom(sha, map[], steps));
      }
    }
  }
}
