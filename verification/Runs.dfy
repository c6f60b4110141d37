/**
 * What folding a log means (crates/allod-core/src/store.rs:65-165, 410-570): the chain is the documents
 * linked by parents from genesis to HEAD; a fold is a run of states along it, each changeset read under the
 * schema of the state before it; a named revision is where the run ends.
 */
module Runs {
  import opened Text
  import opened Values
  import opened Model
  import opened Objects
  import opened Registries
  import opened Meta
  import opened Fold
  import opened Replay
  import opened Store

  // ---------------------------------------------------------------- the chain

  /** A hash names the document filed under it, without its algorithm prefix if it has one. */
  ghost predicate Names(log: map<string, Value>, hash: string, cs: Value) {
    exists name :: (hash == "sha256:" + name || (hash == name && !("sha256:" <= hash))) && name in log && log[name] == cs
  }

  /** The first of the strings a changeset lists as parents. */
  ghost predicate HasParent(cs: Value, parent: string) {
    GetSeq(cs, "parents").Some? && exists i :: FirstString(GetSeq(cs, "parents").value, i, parent)
  }

  ghost predicate FirstString(items: seq<Value>, i: int, x: string) {
    0 <= i < |items| && items[i] == Str(x) && forall j :: 0 <= j < i ==> !items[j].Str?
  }

  /** The documents from one without a parent to the one the hash names, each the parent of the next. */
  ghost predicate IsChain(log: map<string, Value>, hash: string, chain: seq<Value>) {
    && chain != [] && Names(log, hash, chain[|chain| - 1])
    && (forall parent :: !HasParent(chain[0], parent))
    && forall i :: 0 < i < |chain| ==> Links(log, chain[i - 1], chain[i])
  }

  ghost predicate Links(log: map<string, Value>, older: Value, newer: Value) {
    exists parent :: HasParent(newer, parent) && Names(log, parent, older)
  }

  lemma NamesIs(log: map<string, Value>, hash: string, cs: Value)
    ensures Names(log, hash, cs) <==> Short(hash) in log && log[Short(hash)] == cs
  {
    if "sha256:" <= hash {
      var name := hash[|"sha256:"|..];
      assert hash == "sha256:" + name && Short(hash) == name;
      assert forall other :: hash == "sha256:" + other ==> other == hash[|"sha256:"|..];
    } else {
      assert Short(hash) == hash;
      assert forall name :: hash != "sha256:" + name;
    }
  }

  lemma {:induction false} FirstStringIs(items: seq<Value>, x: string)
    ensures (Strings(items) != [] && Strings(items)[0] == x) <==> exists i :: FirstString(items, i, x)
  {
    if items == [] {
    } else if items[0].Str? {
      assert FirstString(items, 0, items[0].s);
    } else {
      var rest := items[1..];
      FirstStringIs(rest, x);
      if i :| FirstString(rest, i, x) {
        assert forall j :: 0 < j < i + 1 ==> items[j] == rest[j - 1];
        assert FirstString(items, i + 1, x);
      }
      if i :| FirstString(items, i, x) {
        assert forall j :: 0 <= j < i - 1 ==> rest[j] == items[j + 1];
        assert FirstString(rest, i - 1, x);
      }
    }
  }

  lemma ParentIs(cs: Value, parent: string)
    ensures HasParent(cs, parent) <==> FirstParent(cs) == Some(parent)
  {
    if GetSeq(cs, "parents").Some? {
      FirstStringIs(GetSeq(cs, "parents").value, parent);
      hide Strings, FirstString;
    }
  }

  lemma ParentsAre()
    ensures forall cs, parent :: HasParent(cs, parent) <==> FirstParent(cs) == Some(parent)
    ensures forall log, hash, cs :: Names(log, hash, cs) <==> Short(hash) in log && log[Short(hash)] == cs
  {
    hide *;
    forall cs, parent ensures HasParent(cs, parent) <==> FirstParent(cs) == Some(parent) {
      ParentIs(cs, parent);
    }
    forall log, hash, cs ensures Names(log, hash, cs) <==> Short(hash) in log && log[Short(hash)] == cs {
      NamesIs(log, hash, cs);
    }
  }

  lemma ChainGrows(log: map<string, Value>, hash: string, older: seq<Value>, cs: Value, parent: string)
    requires HasParent(cs, parent) && Names(log, hash, cs)
    ensures IsChain(log, hash, older + [cs]) <==> IsChain(log, parent, older)
  {
    if IsChain(log, hash, older + [cs]) {
      ChainShrinks(log, hash, older, cs, parent);
    }
    if IsChain(log, parent, older) {
      ChainExtends(log, hash, older, cs, parent);
    }
  }

  lemma ChainShrinks(log: map<string, Value>, hash: string, older: seq<Value>, cs: Value, parent: string)
    requires HasParent(cs, parent) && IsChain(log, hash, older + [cs])
    ensures IsChain(log, parent, older)
  {
    ParentsAre();
    hide HasParent, Names, FirstParent, Short;
    var chain := older + [cs];
    assert chain[|older|] == cs;
    assert older != [];
    assert Links(log, chain[|older| - 1], chain[|older|]);
    assert chain[0] == older[0] && chain[|older| - 1] == older[|older| - 1];
    forall i | 0 < i < |older| ensures Links(log, older[i - 1], older[i]) {
      assert Links(log, chain[i - 1], chain[i]);
    }
  }

  lemma ChainExtends(log: map<string, Value>, hash: string, older: seq<Value>, cs: Value, parent: string)
    requires HasParent(cs, parent) && Names(log, hash, cs) && IsChain(log, parent, older)
    ensures IsChain(log, hash, older + [cs])
  {
    hide HasParent, Names;
    var chain := older + [cs];
    forall i | 0 < i < |chain| ensures Links(log, chain[i - 1], chain[i]) {
      if i < |older| {
        assert Links(log, older[i - 1], older[i]);
      }
    }
  }

  lemma {:induction false} WalkIs(log: map<string, Value>, hash: string, fuel: nat, chain: seq<Value>)
    ensures Walk(log, hash, fuel) == Some(Ok(chain)) <==> |chain| <= fuel && IsChain(log, hash, chain)
    decreases fuel
  {
    ParentsAre();
    hide HasParent, Names, FirstParent, Short, IsChain;
    if fuel == 0 || Short(hash) !in log {
      NoChain(log, hash, chain);
    } else {
      var cs := log[Short(hash)];
      if FirstParent(cs).None? {
        OneLong(log, hash, cs, chain);
      } else if chain == [] {
        NoChain(log, hash, chain);
      } else {
        var older := chain[..|chain| - 1];
        WalkIs(log, FirstParent(cs).value, fuel - 1, older);
        LastIs(log, hash, chain);
        if chain[|chain| - 1] == cs {
          assert chain == older + [cs];
          ChainGrows(log, hash, older, cs, FirstParent(cs).value);
        }
        var w := Walk(log, FirstParent(cs).value, fuel - 1);
        if w.Some? && w.value.Ok? {
          assert (w.value.value + [cs])[..|w.value.value|] == w.value.value;
        }
      }
    }
  }

  lemma NoChain(log: map<string, Value>, hash: string, chain: seq<Value>)
    ensures IsChain(log, hash, chain) ==> chain != [] && Short(hash) in log
  {
    ParentsAre();
    hide HasParent, Names, FirstParent, Short;
  }

  lemma LastIs(log: map<string, Value>, hash: string, chain: seq<Value>)
    requires Short(hash) in log
    ensures IsChain(log, hash, chain) ==> chain[|chain| - 1] == log[Short(hash)]
  {
    ParentsAre();
    hide HasParent, Names, FirstParent, Short;
  }

  lemma OneLong(log: map<string, Value>, hash: string, cs: Value, chain: seq<Value>)
    requires Names(log, hash, cs) && forall parent :: !HasParent(cs, parent)
    ensures IsChain(log, hash, chain) <==> chain == [cs]
  {
    ParentsAre();
    hide HasParent, Names, FirstParent, Short;
    assert forall older :: !Links(log, older, cs);
    if |chain| > 1 {
      assert !Links(log, chain[|chain| - 2], cs);
    }
  }

  /** The chain of a log is the one way its documents link from genesis to HEAD. */
  lemma ChainIs(log: map<string, Value>, hash: string, chain: seq<Value>)
    requires Ends(log, Some(hash))
    ensures ChainOf(log, Some(hash)) == Ok(chain) <==> IsChain(log, hash, chain)
  {
    var n := Steps(log, hash);
    WalkIs(log, hash, n, chain);
    WalkIs(log, hash, n + |chain|, chain);
    WalkSettles(log, hash, n, n + |chain|);
    hide IsChain, Walk;
  }

  // ---------------------------------------------------------------- the schema a changeset is read under

  /** The operation writes a node of a meta type, or deletes one that is live. */
  ghost predicate ChangesSchema(s: Objects, op: Value) {
    exists verb, payload ::
      && op == Map(map[verb := payload]) && GetStr(payload, "kind") == Some("node")
      && ((verb in {"create", "update"} && GetStr(payload, "type").Some? && Bare(GetStr(payload, "type").value) in META_NAMES)
          || (verb == "delete" && GetStr(payload, "id").Some? && LiveMeta(s, GetStr(payload, "id").value)))
  }

  const META_NAMES: set<string> :=
    {"meta/EntityType", "meta/EdgeType", "meta/Struct", "meta/ValidationRule", "meta/TaxonomyTerm", "meta/Policy"}

  ghost predicate LiveMeta(s: Objects, id: string) {
    && ("node", id) in s && !s[("node", id)].deleted
    && GetStr(s[("node", id)].content, "type").Some? && Bare(GetStr(s[("node", id)].content, "type").value) in META_NAMES
  }

  lemma SameNames()
    ensures META_NAMES == META_TYPES
  {
  }

  lemma OpChangesSchema(s: Objects, op: Value)
    ensures OpTouchesMeta(s, op) <==> ChangesSchema(s, op)
  {
    SameNames();
    hide Bare, META_NAMES, META_TYPES;
    if ParseOp(op).Ok? {
      var t := ParseOp(op).value;
      assert op.m.Keys == {t.verb} && op.m[t.verb] == t.payload;
      assert op.m == map[t.verb := t.payload];
    }
    forall verb, payload | op == Map(map[verb := payload]) ensures ParseOp(op) == Ok(Touched(verb, payload)) {
      ParsesSingle(verb, payload);
    }
    hide ParseOp;
  }

  /**
   * The registry a changeset is read under: that of the state before it; for a genesis that changes the
   * schema, that of the state with the nodes it writes taken at their word.
   */
  ghost predicate ReadUnder(env: Env, s: Objects, genesis: bool, cs: Value, reg: Registry) {
    if genesis && exists op :: op in OpsOf(cs) && ChangesSchema(s, op) then FromState(env.parse, Speculate(env, s, OpsOf(cs))) == Ok(reg)
    else FromState(env.parse, s) == Ok(reg)
  }

  lemma ReadUnderIs(env: Env, s: Objects, genesis: bool, cs: Value, reg: Registry)
    ensures ReadUnder(env, s, genesis, cs, reg) <==> RegistryFor(env, s, genesis, cs) == Ok(reg)
  {
    SchemaTouched(s, cs);
    hide TouchesMeta, ChangesSchema, FromState, Speculate, OpsOf;
  }

  lemma SchemaTouched(s: Objects, cs: Value)
    ensures TouchesMeta(s, cs) <==> exists op :: op in OpsOf(cs) && ChangesSchema(s, op)
  {
    forall op ensures OpTouchesMeta(s, op) <==> ChangesSchema(s, op) {
      OpChangesSchema(s, op);
    }
    hide OpTouchesMeta, ChangesSchema, OpsOf;
  }

  // ---------------------------------------------------------------- runs

  /** One accepted changeset. */
  ghost predicate Accepted(env: Env, s: Objects, genesis: bool, cs: Value, t: Objects) {
    exists reg :: ReadUnder(env, s, genesis, cs, reg) && Apply(env.sha, reg, s, cs) == Ok(t)
  }

  /** The states a chain leads through. */
  ghost predicate IsRun(env: Env, s: Objects, genesis: bool, chain: seq<Value>, states: seq<Objects>) {
    && |states| == |chain| + 1 && states[0] == s
    && forall i :: 0 <= i < |chain| ==> Accepted(env, states[i], genesis && i == 0, chain[i], states[i + 1])
  }

  ghost predicate HasHash(cs: Value, h: string) {
    GetStr(cs, "hash").GetOr("") == h
  }

  /** A fold ends after the first changeset of the named revision, and after the last when none is named. */
  ghost predicate EndsAfter(chain: seq<Value>, stop: Option<string>, n: nat) {
    match stop
    case None => n == |chain|
    case Some(h) => 0 < n <= |chain| && HasHash(chain[n - 1], h) && forall i :: 0 <= i < n - 1 ==> !HasHash(chain[i], h)
  }

  ghost predicate Leads(env: Env, s: Objects, genesis: bool, chain: seq<Value>, stop: Option<string>, n: nat, states: seq<Objects>, t: Objects) {
    && EndsAfter(chain, stop, n) && IsRun(env, s, genesis, chain[..n], states) && states[n] == t
  }

  lemma OneStep(env: Env, s: Objects, genesis: bool, cs: Value, t: Objects)
    ensures Accepted(env, s, genesis, cs, t) <==>
            RegistryFor(env, s, genesis, cs).Ok? && Apply(env.sha, RegistryFor(env, s, genesis, cs).value, s, cs) == Ok(t)
  {
    forall reg ensures ReadUnder(env, s, genesis, cs, reg) <==> RegistryFor(env, s, genesis, cs) == Ok(reg) {
      ReadUnderIs(env, s, genesis, cs, reg);
    }
    hide ReadUnder, RegistryFor, Apply;
  }

  lemma RunGrows(env: Env, s: Objects, genesis: bool, chain: seq<Value>, states: seq<Objects>)
    requires chain != [] && |states| == |chain| + 1
    ensures IsRun(env, s, genesis, chain, states) <==>
            states[0] == s && Accepted(env, s, genesis, chain[0], states[1]) && IsRun(env, states[1], false, chain[1..], states[1..])
  {
    hide Accepted;
    var rest, later := chain[1..], states[1..];
    if IsRun(env, s, genesis, chain, states) {
      assert Accepted(env, states[0], genesis, chain[0], states[1]);
      forall i | 0 <= i < |rest| ensures Accepted(env, later[i], false, rest[i], later[i + 1]) {
        assert Accepted(env, states[i + 1], false, chain[i + 1], states[i + 2]);
      }
    }
    if states[0] == s && Accepted(env, s, genesis, chain[0], states[1]) && IsRun(env, states[1], false, rest, later) {
      forall i | 0 < i < |chain| ensures Accepted(env, states[i], false, chain[i], states[i + 1]) {
        assert Accepted(env, later[i - 1], false, rest[i - 1], later[i]);
      }
    }
  }

  lemma EndsLater(chain: seq<Value>, stop: Option<string>, n: nat)
    requires chain != [] && (stop.None? || !HasHash(chain[0], stop.value))
    ensures EndsAfter(chain, stop, n) <==> n > 0 && EndsAfter(chain[1..], stop, n - 1)
  {
    hide HasHash;
    var rest := chain[1..];
    if stop.Some? && n > 0 {
      if EndsAfter(chain, stop, n) {
        assert n > 1 && chain[n - 1] == rest[n - 2];
        assert forall i :: 0 <= i < n - 2 ==> rest[i] == chain[i + 1];
      }
      if EndsAfter(rest, stop, n - 1) {
        assert chain[n - 1] == rest[n - 2];
        assert forall i :: 0 < i < n - 1 ==> chain[i] == rest[i - 1];
      }
    }
  }

  lemma LeadsLater(env: Env, s: Objects, genesis: bool, chain: seq<Value>, stop: Option<string>, n: nat, states: seq<Objects>, t: Objects)
    requires chain != [] && (stop.None? || !HasHash(chain[0], stop.value)) && n > 0 && |states| == n + 1
    ensures Leads(env, s, genesis, chain, stop, n, states, t) <==>
            states[0] == s && Accepted(env, s, genesis, chain[0], states[1]) && Leads(env, states[1], false, chain[1..], stop, n - 1, states[1..], t)
  {
    EndsLater(chain, stop, n);
    hide Accepted, HasHash;
    if n <= |chain| {
      assert chain[..n][0] == chain[0] && chain[..n][1..] == chain[1..][..n - 1];
      RunGrows(env, s, genesis, chain[..n], states);
    }
  }

  lemma LeadsSize(env: Env, s: Objects, genesis: bool, chain: seq<Value>, stop: Option<string>, n: nat, states: seq<Objects>, t: Objects)
    requires Leads(env, s, genesis, chain, stop, n, states, t)
    ensures n <= |chain| && |states| == n + 1 && states[0] == s && states[n] == t
  {
  }

  lemma {:induction false} FoldLeads(env: Env, s: Objects, genesis: bool, chain: seq<Value>, stop: Option<string>, t: Objects) returns (n: nat, states: seq<Objects>)
    requires FoldUpTo(env, s, genesis, chain, stop) == Ok(t)
    ensures Leads(env, s, genesis, chain, stop, n, states, t)
    decreases |chain|
  {
    hide RegistryFor, Apply, Accepted;
    if chain == [] {
      n, states := 0, [s];
      assert chain[..0] == [];
    } else {
      var reg := RegistryFor(env, s, genesis, chain[0]).value;
      var s' := Apply(env.sha, reg, s, chain[0]).value;
      OneStep(env, s, genesis, chain[0], s');
      if IsStop(stop, chain[0]) {
        n, states := 1, [s, s'];
        assert chain[..1] == [chain[0]];
      } else {
        var m, later := FoldLeads(env, s', false, chain[1..], stop, t);
        LeadsSize(env, s', false, chain[1..], stop, m, later, t);
        n, states := m + 1, [s] + later;
        assert states[1..] == later && states[1] == s';
        LeadsLater(env, s, genesis, chain, stop, n, states, t);
      }
    }
  }

  lemma LeadsOnce(env: Env, s: Objects, genesis: bool, chain: seq<Value>, stop: Option<string>, n: nat, states: seq<Objects>, t: Objects)
    requires Leads(env, s, genesis, chain, stop, n, states, t)
    requires chain != [] && stop.Some? && HasHash(chain[0], stop.value)
    ensures Accepted(env, s, genesis, chain[0], t)
  {
    hide HasHash, Accepted;
    assert n == 1;
    RunGrows(env, s, genesis, chain[..1], states);
  }

  lemma {:induction false} LeadsFold(env: Env, s: Objects, genesis: bool, chain: seq<Value>, stop: Option<string>, n: nat, states: seq<Objects>, t: Objects)
    requires Leads(env, s, genesis, chain, stop, n, states, t)
    ensures FoldUpTo(env, s, genesis, chain, stop) == Ok(t)
    decreases |chain|
  {
    LeadsSize(env, s, genesis, chain, stop, n, states, t);
    hide RegistryFor, Apply, Accepted;
    if chain == [] {
    } else if stop.Some? && HasHash(chain[0], stop.value) {
      LeadsOnce(env, s, genesis, chain, stop, n, states, t);
      OneStep(env, s, genesis, chain[0], t);
    } else {
      hide IsRun;
      LeadsLater(env, s, genesis, chain, stop, n, states, t);
      OneStep(env, s, genesis, chain[0], states[1]);
      LeadsFold(env, states[1], false, chain[1..], stop, n - 1, states[1..], t);
    }
  }

  /**
   * A fold gives a state exactly when a run of accepted changesets leads to it from the empty state and ends
   * where the named revision is, or at the end of the chain. A revision that is not in the chain is an error.
   */
  lemma FoldIsRun(env: Env, chain: seq<Value>, stop: Option<string>, t: Objects)
    ensures FoldUpTo(env, map[], true, chain, stop) == Ok(t) <==> exists n: nat, states :: Leads(env, map[], true, chain, stop, n, states, t)
  {
    if FoldUpTo(env, map[], true, chain, stop) == Ok(t) {
      var n, states := FoldLeads(env, map[], true, chain, stop, t);
    }
    if n: nat, states :| Leads(env, map[], true, chain, stop, n, states, t) {
      LeadsFold(env, map[], true, chain, stop, n, states, t);
    }
  }
}
