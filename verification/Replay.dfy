/**
 * Replaying a chain of changesets (crates/allod-core/src/store.rs:65-165, 489-570): the registry is
 * derived from the state, except that `fold_to` reuses the last derived registry while changesets
 * leave the schema alone.
 */
module Replay {
  import opened Text
  import opened Values
  import opened Hashing
  import opened Model
  import opened Objects
  import opened Registries
  import opened Meta
  import opened Fold
  import FoldInvariant

  /** The parameters of replay that the program gets from libraries. */
  datatype Env = Env(sha: Sha, parse: Parser)

  // ---------------------------------------------------------------- which changesets touch the schema

  function PayloadType(payload: Value): Option<string> {
    GetStr(payload, "type")
  }

  predicate WritesMeta(t: Touched) {
    && (t.verb == "create" || t.verb == "update")
    && GetStr(t.payload, "kind") == Some("node")
    && PayloadType(t.payload).Some? && IsMetaType(PayloadType(t.payload).value)
  }

  /** A delete of a node that is a live meta node before the changeset. */
  predicate DeletesMeta(s: Objects, t: Touched) {
    && t.verb == "delete"
    && GetStr(t.payload, "kind") == Some("node") && GetStr(t.payload, "id").Some?
    && IsMetaNode(s, ("node", GetStr(t.payload, "id").value))
  }

  predicate OpTouchesMeta(s: Objects, op: Value) {
    ParseOp(op).Ok? && (WritesMeta(ParseOp(op).value) || DeletesMeta(s, ParseOp(op).value))
  }

  predicate TouchesMeta(s: Objects, cs: Value) {
    exists op | op in OpsOf(cs) :: OpTouchesMeta(s, op)
  }

  // ---------------------------------------------------------------- the registry that governs a changeset

  /** An operation that writes a meta node of a known type is taken at its word; any other is passed over. */
  function SpeculateOp(env: Env, s: Objects, op: Value): Objects {
    match ParseOp(op)
    case Err(_) => s
    case Ok(t) =>
      if WritesMeta(t) && GetStr(t.payload, "id").Some? && ResolveType(META_REGISTRY, PayloadType(t.payload).value, None).Some? then
        s[("node", GetStr(t.payload, "id").value) :=
            NewObject(env.sha, if t.verb == "update" then Remove(t.payload, "prior") else t.payload)]
      else s
  }

  function Speculate(env: Env, s: Objects, ops: seq<Value>): Objects
    decreases |ops|
  {
    if ops == [] then s else Speculate(env, SpeculateOp(env, s, ops[0]), ops[1..])
  }

  /** Only the genesis changeset may use schema it installs itself. */
  function RegistryFor(env: Env, s: Objects, genesis: bool, cs: Value): Result<Registry> {
    if genesis && TouchesMeta(s, cs) then FromState(env.parse, Speculate(env, s, OpsOf(cs)))
    else FromState(env.parse, s)
  }

  predicate IsStop(stop: Option<string>, cs: Value) {
    stop.Some? && GetStr(cs, "hash").GetOr("") == stop.value
  }

  function Finished(s: Objects, stop: Option<string>): Result<Objects> {
    if stop.None? then Ok(s) else Err("revision is not in the chain")
  }

  /** Replay that derives the registry from committed state before every changeset. */
  function FoldUpTo(env: Env, s: Objects, genesis: bool, chain: seq<Value>, stop: Option<string>): Result<Objects>
    decreases |chain|
  {
    if chain == [] then Finished(s, stop)
    else
      var reg :- RegistryFor(env, s, genesis, chain[0]);
      var s' :- Apply(env.sha, reg, s, chain[0]);
      if IsStop(stop, chain[0]) then Ok(s') else FoldUpTo(env, s', false, chain[1..], stop)
  }

  // ---------------------------------------------------------------- the program's replay

  /** The registry used for one changeset, and the cache afterwards. */
  function CachedRegistry(env: Env, s: Objects, genesis: bool, cache: Option<Registry>, cs: Value): Result<(Registry, Option<Registry>)> {
    if TouchesMeta(s, cs) then
      var reg :- RegistryFor(env, s, genesis, cs);
      Ok((reg, None))
    else if cache.Some? then Ok((cache.value, cache))
    else
      var reg :- FromState(env.parse, s);
      Ok((reg, Some(reg)))
  }

  function CachedUpTo(env: Env, s: Objects, genesis: bool, cache: Option<Registry>, chain: seq<Value>, stop: Option<string>): Result<Objects>
    decreases |chain|
  {
    if chain == [] then Finished(s, stop)
    else
      var (reg, cache') :- CachedRegistry(env, s, genesis, cache, chain[0]);
      var s' :- Apply(env.sha, reg, s, chain[0]);
      if IsStop(stop, chain[0]) then Ok(s') else CachedUpTo(env, s', false, cache', chain[1..], stop)
  }

  method FoldChain(env: Env, chain: seq<Value>, stop: Option<string>) returns (r: Result<Objects>)
    ensures r == CachedUpTo(env, map[], true, None, chain, stop)
  {
    hide Apply, RegistryFor, TouchesMeta, FromState;
    var state := new State();
    var genesis, cache := true, None;
    assert chain[0..] == chain;
    for i := 0 to |chain|
      invariant fresh(state)
      invariant CachedUpTo(env, map[], true, None, chain, stop) == CachedUpTo(env, state.objects, genesis, cache, chain[i..], stop)
    {
      var cs := chain[i];
      assert chain[i..][1..] == chain[i + 1..];
      var touches := TouchesMeta(state.objects, cs);
      if touches {
        cache := None;
      }
      var effective;
      if touches {
        effective := RegistryFor(env, state.objects, genesis, cs);
      } else if cache.Some? {
        effective := Ok(cache.value);
      } else {
        effective := FromState(env.parse, state.objects);
        if effective.Ok? {
          cache := Some(effective.value);
        }
      }
      if effective.Err? {
        return Err(effective.error);
      }
      genesis := false;
      var applied := state.ApplyChangeset(env.sha, effective.value, cs);
      if applied.Err? {
        return Err(applied.error);
      }
      if IsStop(stop, cs) {
        return Ok(state.objects);
      }
    }
    r := Finished(state.objects, stop);
  }

  // ---------------------------------------------------------------- when the cache is right

  predicate ClaimsReserved(payload: Value) {
    GetStr(AttributesOf(payload), "package") == Some("meta") || GetStr(AttributesOf(payload), "taxonomy") == Some("meta")
  }

  /** The three shapes the invalidation test overlooks: a recorded node is retyped or redacted, another node claims the reserved package. */
  predicate OpEscapes(s: Objects, op: Value) {
    && ParseOp(op).Ok? && KeyOf(ParseOp(op).value.payload).Ok?
    && var t := ParseOp(op).value;
       var k := KeyOf(t.payload).value;
       || (t.verb == "update" && IsSchemaNode(s, k))
       || (t.verb == "redact-document" && IsSchemaNode(s, k))
       || ((t.verb == "create" || t.verb == "update") && k.0 == "node" && PayloadType(t.payload).Some? && ClaimsReserved(t.payload))
  }

  /** The changeset is seen to touch the schema, or none of its operations escapes the test. */
  predicate Guarded(s: Objects, cs: Value) {
    TouchesMeta(s, cs) || forall op | op in OpsOf(cs) :: !OpEscapes(s, op)
  }

  /** Every changeset of the chain is guarded at the state it is applied to. */
  ghost predicate GuardedRun(env: Env, s: Objects, genesis: bool, chain: seq<Value>)
    decreases |chain|
  {
    chain != [] ==>
      && Guarded(s, chain[0])
      && (RegistryFor(env, s, genesis, chain[0]).Ok? ==>
            var applied := Apply(env.sha, RegistryFor(env, s, genesis, chain[0]).value, s, chain[0]);
            applied.Ok? ==> GuardedRun(env, applied.value, false, chain[1..]))
  }

  /** An operation that neither touches the schema nor escapes the test. */
  predicate Plain(s: Objects, op: Value) {
    !OpTouchesMeta(s, op) && !OpEscapes(s, op)
  }

  lemma SameViewSameNodes(s: Objects, t: Objects, k: Key)
    requires SchemaView(s) == SchemaView(t)
    ensures IsSchemaNode(s, k) <==> IsSchemaNode(t, k)
  {
    hide Bare, IsMetaType;
    assert k in SchemaView(s) <==> IsSchemaNode(s, k);
    assert k in SchemaView(t) <==> IsSchemaNode(t, k);
  }

  /** Writing an unrecorded object over something that is not recorded leaves the view alone. */
  lemma PlainWrite(s: Objects, k: Key, o: Obj)
    requires !IsSchemaNode(s, k) && !IsSchemaNode(s[k := o], k)
    ensures SchemaView(s[k := o]) == SchemaView(s)
  {
    var t := s[k := o];
    hide Bare, IsMetaType;
    forall j | j != k ensures IsSchemaNode(t, j) <==> IsSchemaNode(s, j) {
    }
    hide IsSchemaNode;
    assert forall j :: j in SchemaView(t) <==> j in SchemaView(s);
  }

  lemma UnclaimedWrite(s: Objects, k: Key, o: Obj)
    requires NoClaims(s) && !ClaimsMeta(s[k := o], k)
    ensures NoClaims(s[k := o])
  {
    var t := s[k := o];
    forall j | j in t && j != k ensures !ClaimsMeta(t, j) {
      assert !ClaimsMeta(s, j);
    }
  }

  lemma EnvelopeHasNoType(k: Key, content: Value)
    ensures GetStr(Envelope(k.0, k.1, content), "type") == None
  {
  }

  lemma RemovePriorKeeps(payload: Value)
    ensures GetStr(Remove(payload, "prior"), "type") == GetStr(payload, "type")
    ensures AttributesOf(Remove(payload, "prior")) == AttributesOf(payload)
  {
  }

  /** The object a plain operation writes, if it writes one. */
  lemma PlainObject(env: Env, reg: Registry, s0: Objects, s: Objects, op: Value)
    requires SchemaView(s) == SchemaView(s0) && Plain(s0, op)
    requires ParseOp(op).Ok? && KeyOf(ParseOp(op).value.payload).Ok?
    requires var t := ParseOp(op).value;
             ApplyVerb(env.sha, reg, s, t.verb, KeyOf(t.payload).value, t.payload).Ok?
    ensures var t := ParseOp(op).value;
            var k := KeyOf(t.payload).value;
            var s' := ApplyVerb(env.sha, reg, s, t.verb, k, t.payload).value;
            s' == s || (k in s' && s' == s[k := s'[k]] && !IsSchemaNode(s, k) && !IsSchemaNode(s', k) && !ClaimsMeta(s', k))
  {
    hide ValidatePayload, RevisionHash, SchemaView, ParseOp, ClaimsReserved, Bare, IsMetaType;
    var t := ParseOp(op).value;
    var k := KeyOf(t.payload).value;
    SameViewSameNodes(s, s0, k);
    RemovePriorKeeps(t.payload);
    if t.verb == "create" {
      PlainWriteOfPayload(s, k, NewObject(env.sha, t.payload), t);
    } else if t.verb == "update" {
      PlainWriteOfPayload(s, k, NewObject(env.sha, Remove(t.payload, "prior")), t);
    } else if t.verb == "redact-document" {
      EnvelopeHasNoType(k, s[k].content);
    }
  }

  lemma PlainWriteOfPayload(s: Objects, k: Key, o: Obj, t: Touched)
    requires GetStr(t.payload, "kind") == Some(k.0)
    requires GetStr(o.content, "type") == GetStr(t.payload, "type") && AttributesOf(o.content) == AttributesOf(t.payload)
    requires t.verb == "create" || t.verb == "update"
    requires !WritesMeta(t)
    requires k.0 == "node" && PayloadType(t.payload).Some? ==> !ClaimsReserved(t.payload)
    ensures !IsSchemaNode(s[k := o], k) && !ClaimsMeta(s[k := o], k)
  {
    hide IsMetaType, AttributesOf, Bare;
  }

  lemma PlainOp(env: Env, reg: Registry, s0: Objects, w: Working, op: Value)
    requires SchemaView(w.objects) == SchemaView(s0) && NoClaims(w.objects) && Plain(s0, op)
    requires ApplyOp(env.sha, reg, w, op).Ok?
    ensures SchemaView(ApplyOp(env.sha, reg, w, op).value.objects) == SchemaView(s0)
    ensures NoClaims(ApplyOp(env.sha, reg, w, op).value.objects)
  {
    PlainObject(env, reg, s0, w.objects, op);
    hide Plain, ApplyVerb, ParseOp, KeyOf, SchemaView, IsSchemaNode, NoClaims, ClaimsMeta;
    var t := ParseOp(op).value;
    var k := KeyOf(t.payload).value;
    var s, s' := w.objects, ApplyVerb(env.sha, reg, w.objects, t.verb, k, t.payload).value;
    if s' != s {
      PlainWrite(s, k, s'[k]);
      UnclaimedWrite(s, k, s'[k]);
    }
  }

  lemma {:induction false} PlainOps(env: Env, reg: Registry, s0: Objects, w: Working, ops: seq<Value>)
    requires SchemaView(w.objects) == SchemaView(s0) && NoClaims(w.objects)
    requires forall op :: op in ops ==> Plain(s0, op)
    requires ApplyOps(env.sha, reg, w, ops).Ok?
    ensures SchemaView(ApplyOps(env.sha, reg, w, ops).value.objects) == SchemaView(s0)
    ensures NoClaims(ApplyOps(env.sha, reg, w, ops).value.objects)
    decreases |ops|
  {
    hide Plain, ApplyOp, SchemaView, NoClaims;
    if ops == [] {
    } else {
      PlainOp(env, reg, s0, w, ops[0]);
      PlainOps(env, reg, s0, ApplyOp(env.sha, reg, w, ops[0]).value, ops[1..]);
    }
  }

  /** A changeset that leaves the schema alone leaves the derived registry alone. */
  lemma UntouchedRegistry(env: Env, reg: Registry, s: Objects, cs: Value)
    requires !TouchesMeta(s, cs) && Guarded(s, cs)
    requires NoClaims(s) && Apply(env.sha, reg, s, cs).Ok?
    ensures NoClaims(Apply(env.sha, reg, s, cs).value)
    ensures FromState(env.parse, Apply(env.sha, reg, s, cs).value) == FromState(env.parse, s)
  {
    hide OpTouchesMeta, OpEscapes, ApplyOp, NoDangling, RulesHold, NoClaims, SchemaView;
    assert forall op :: op in OpsOf(cs) ==> Plain(s, op);
    HeaderOps(env, cs);
    hide CheckHeader;
    PlainOps(env, reg, s, Working(s, [], []), OpsOf(cs));
    SameMetaSameRegistry(env.parse, Apply(env.sha, reg, s, cs).value, s);
  }

  lemma HeaderOps(env: Env, cs: Value)
    requires CheckHeader(env.sha, cs).Ok?
    ensures CheckHeader(env.sha, cs).value == OpsOf(cs)
  {
  }

  lemma DerivedMeansUnclaimed(env: Env, s: Objects)
    requires FromState(env.parse, s).Ok?
    ensures NoClaims(s)
  {
    forall k | k in s ensures !ClaimsMeta(s, k) {
      if ClaimsMeta(s, k) {
        ClaimFails(env.parse, s, InOrder(s.Keys), NOTHING, k);
        assert false;
      }
    }
  }

  /** The cached fold is the uncached one, result for result and rejection for rejection, on every guarded chain. */
  lemma {:induction false} CachedIsUncached(env: Env, s: Objects, genesis: bool, cache: Option<Registry>, chain: seq<Value>, stop: Option<string>)
    requires GuardedRun(env, s, genesis, chain)
    requires cache.Some? ==> FromState(env.parse, s) == Ok(cache.value)
    ensures CachedUpTo(env, s, genesis, cache, chain, stop) == FoldUpTo(env, s, genesis, chain, stop)
    decreases |chain|
  {
    hide FromState, Speculate, TouchesMeta, Apply, Guarded;
    if chain == [] {
    } else {
      var cs := chain[0];
      var chosen := CachedRegistry(env, s, genesis, cache, cs);
      if chosen.Ok? && Apply(env.sha, chosen.value.0, s, cs).Ok? {
        var s' := Apply(env.sha, chosen.value.0, s, cs).value;
        if !TouchesMeta(s, cs) {
          DerivedMeansUnclaimed(env, s);
          UntouchedRegistry(env, chosen.value.0, s, cs);
        }
        CachedIsUncached(env, s', false, chosen.value.1, chain[1..], stop);
      }
    }
  }

  // ---------------------------------------------------------------- replay keeps the invariant

  lemma {:induction false} FoldKeepsInv(env: Env, s: Objects, genesis: bool, chain: seq<Value>, stop: Option<string>)
    requires FoldInvariant.Inv(env.sha, s) && FoldUpTo(env, s, genesis, chain, stop).Ok?
    ensures FoldInvariant.Inv(env.sha, FoldUpTo(env, s, genesis, chain, stop).value)
    ensures FoldInvariant.Evolves(s, FoldUpTo(env, s, genesis, chain, stop).value)
    decreases |chain|
  {
    hide FoldInvariant.Inv, Apply, RegistryFor;
    if chain == [] {
    } else {
      var reg := RegistryFor(env, s, genesis, chain[0]).value;
      var next := Apply(env.sha, reg, s, chain[0]).value;
      FoldInvariant.ApplyKeepsInv(env.sha, reg, s, chain[0]);
      if !IsStop(stop, chain[0]) {
        FoldKeepsInv(env, next, false, chain[1..], stop);
        FoldInvariant.EvolvesTransitive(s, next, FoldUpTo(env, next, false, chain[1..], stop).value);
      }
    }
  }

  /** Whatever registry the cache holds, the states the program's replay reaches keep the invariant. */
  lemma {:induction false} CachedKeepsInv(env: Env, s: Objects, genesis: bool, cache: Option<Registry>, chain: seq<Value>, stop: Option<string>)
    requires FoldInvariant.Inv(env.sha, s) && CachedUpTo(env, s, genesis, cache, chain, stop).Ok?
    ensures FoldInvariant.Inv(env.sha, CachedUpTo(env, s, genesis, cache, chain, stop).value)
    ensures FoldInvariant.Evolves(s, CachedUpTo(env, s, genesis, cache, chain, stop).value)
    decreases |chain|
  {
    hide FoldInvariant.Inv, Apply, CachedRegistry;
    if chain == [] {
    } else {
      var chosen := CachedRegistry(env, s, genesis, cache, chain[0]).value;
      var next := Apply(env.sha, chosen.0, s, chain[0]).value;
      FoldInvariant.ApplyKeepsInv(env.sha, chosen.0, s, chain[0]);
      if !IsStop(stop, chain[0]) {
        CachedKeepsInv(env, next, false, chosen.1, chain[1..], stop);
        FoldInvariant.EvolvesTransitive(s, next, CachedUpTo(env, next, false, chosen.1, chain[1..], stop).value);
      }
    }
  }
}
