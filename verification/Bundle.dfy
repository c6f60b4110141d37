/**
 * Share bundles (crates/allod-graph/src/fed.rs:129-412): what is disclosed, the membership proofs
 * that go with it, and the receiver's checks.
 */
module Bundle {
  import opened Text
  import opened Values
  import opened Order
  import opened Canon
  import opened Hashing
  import opened Merkle
  import opened Model
  import opened Objects
  import opened Registries
  import opened Meta
  import opened Quorum

  function SignedPayload(sha: Sha, doc: Value, domain: string): string {
    HashValue(sha, domain, Remove(doc, "signature"))
  }

  // ---------------------------------------------------------------- proofs as documents

  function StepValue(step: Step): Value {
    Map(map["sibling" := Str(step.sibling), "left" := Bool(step.left)])
  }

  function PathValue(path: seq<Step>): Value {
    Seq(seq(|path|, i requires 0 <= i < |path| => StepValue(path[i])))
  }

  function StepOf(v: Value): Option<Step> {
    match (GetStr(v, "sibling"), Get(v, "left"))
    case (Some(s), Some(Bool(b))) => Some(Step(s, b))
    case _ => None
  }

  /** Entries that are not proof steps are skipped. */
  function StepsOf(items: seq<Value>): seq<Step> {
    if items == [] then []
    else
      match StepOf(items[0])
      case None => StepsOf(items[1..])
      case Some(s) => [s] + StepsOf(items[1..])
  }

  function ProofOf(obj: Value): seq<Step> {
    StepsOf(GetSeq(obj, "proof").GetOr([]))
  }

  lemma {:induction false} PathReadsBack(path: seq<Step>)
    ensures StepsOf(PathValue(path).items) == path
  {
    if path == [] {
    } else {
      PathReadsBack(path[1..]);
      assert PathValue(path).items[1..] == PathValue(path[1..]).items;
      assert StepOf(StepValue(path[0])) == Some(path[0]);
      assert path == [path[0]] + path[1..];
    }
  }

  // ---------------------------------------------------------------- what is disclosed

  /** A live node classified under the region, ancestors included. */
  ghost predicate InScope(reg: Registry, s: Objects, k: Key, region: string) {
    LiveOfKind(s, k, "node") &&
    exists t :: t in ClassificationsOf(s, "node:" + k.1) && Bare(region) in TermClosure(reg, t)
  }

  /** A reference to one of the nodes in scope. */
  ghost predicate Covered(reg: Registry, s: Objects, reference: string, region: string) {
    exists k :: k in s && InScope(reg, s, k, region) && reference == "node:" + k.1
  }

  /** Nodes in scope, the schema, and classifications and edges that only mention nodes in scope. */
  ghost predicate IsDisclosed(reg: Registry, s: Objects, k: Key, region: string) {
    || InScope(reg, s, k, region)
    || IsMetaNode(s, k)
    || (LiveOfKind(s, k, "classification") && Covered(reg, s, GetStr(s[k].content, "subject").GetOr(""), region))
    || (LiveOfKind(s, k, "edge") && Covered(reg, s, GetStr(s[k].content, "from").GetOr(""), region)
                                 && Covered(reg, s, GetStr(s[k].content, "to").GetOr(""), region))
  }

  /** One disclosed object: its state entry, its content, and the path to the state hash. */
  function ObjectValue(entry: Value, content: Value, path: seq<Step>): Value {
    Map(map["entry" := entry, "content" := content, "proof" := PathValue(path)])
  }

  /** `v` discloses object `k` of the state. */
  ghost predicate Discloses(sha: Sha, s: Objects, k: Key, v: Value) {
    k in s && exists i: nat ::
      && i < |InOrder(s.Keys)| && InOrder(s.Keys)[i] == k
      && PathFrom(sha, STATE.node, StateLeaves(sha, Entries(s)), i).Some?
      && v == ObjectValue(EntryAt(s, k), s[k].content, PathFrom(sha, STATE.node, StateLeaves(sha, Entries(s)), i).value)
  }

  // ---------------------------------------------------------------- making a bundle

  /** Listing in state order: what was listed so far comes before the next key. */
  lemma PushAscends(s: Objects, part: seq<Key>, i: nat)
    requires i < |InOrder(s.Keys)|
    requires Ascending(Before, part) && forall k :: k in part ==> k in InOrder(s.Keys)[..i]
    ensures Ascending(Before, part + [InOrder(s.Keys)[i]])
  {
    BeforeIsOrder();
    hide Before;
    var all := InOrder(s.Keys);
    forall j | 0 <= j < |part| ensures Before(part[j], all[i]) {
      assert part[j] in all[..i];
    }
  }

  lemma OneMore<T>(s: seq<T>, i: nat)
    requires i < |s|
    ensures forall x :: x in s[..i + 1] <==> x in s[..i] || x == s[i]
  {
    assert s[..i + 1] == s[..i] + [s[i]];
  }

  method IsInScope(reg: Registry, s: Objects, k: Key, region: string) returns (found: bool)
    ensures found <==> InScope(reg, s, k, region)
  {
    hide TermClosure, ClassificationsOf, LiveOfKind, Bare;
    if !LiveOfKind(s, k, "node") {
      return false;
    }
    var terms := ClassificationsOf(s, "node:" + k.1);
    found := false;
    for j := 0 to |terms|
      invariant found <==> exists t :: t in terms[..j] && Bare(region) in TermClosure(reg, t)
    {
      var closure := TermClosureLoop(reg, terms[j]);
      OneMore(terms, j);
      found := found || Bare(region) in closure;
    }
    assert terms[..|terms|] == terms;
  }

  /** Nodes in scope, in state order. */
  method ScopeNodes(reg: Registry, s: Objects, region: string) returns (nodes: seq<Key>)
    ensures forall k :: k in nodes <==> k in s && InScope(reg, s, k, region)
    ensures Ascending(Before, nodes)
  {
    hide InScope, InOrder, Before;
    nodes := [];
    var keys := InOrder(s.Keys);
    for i := 0 to |keys|
      invariant Ascending(Before, nodes)
      invariant forall k :: k in nodes <==> k in keys[..i] && InScope(reg, s, k, region)
    {
      var k := keys[i];
      OneMore(keys, i);
      var found := IsInScope(reg, s, k, region);
      if found {
        PushAscends(s, nodes, i);
        nodes := nodes + [k];
      }
    }
    assert keys[..|keys|] == keys;
  }

  predicate RefersTo(nodes: seq<Key>, reference: string) {
    exists n | n in nodes :: reference == "node:" + n.1
  }

  /** The second disclosure pass: the schema travels whatever the region is. */
  predicate IsSchema(s: Objects, nodes: seq<Key>, k: Key) {
    IsMetaNode(s, k) && k !in nodes
  }

  /** The third disclosure pass: what hangs on the nodes in scope alone. */
  predicate Follows(s: Objects, nodes: seq<Key>, k: Key) {
    || (LiveOfKind(s, k, "classification") && RefersTo(nodes, GetStr(s[k].content, "subject").GetOr("")))
    || (LiveOfKind(s, k, "edge") && RefersTo(nodes, GetStr(s[k].content, "from").GetOr(""))
                                 && RefersTo(nodes, GetStr(s[k].content, "to").GetOr("")))
  }

  lemma FollowersAreNew(reg: Registry, s: Objects, region: string, nodes: seq<Key>, k: Key)
    requires forall j :: j in nodes ==> InScope(reg, s, j, region)
    requires Follows(s, nodes, k)
    ensures k !in nodes && !IsSchema(s, nodes, k)
  {
    hide TermClosure, RefersTo;
  }

  /** The schema that is not in scope, in state order. */
  method SchemaNodes(s: Objects, nodes: seq<Key>) returns (schema: seq<Key>)
    ensures forall k :: k in schema <==> k in s && IsSchema(s, nodes, k)
    ensures Ascending(Before, schema)
  {
    hide IsSchema, InOrder, Before;
    schema := [];
    var keys := InOrder(s.Keys);
    for i := 0 to |keys|
      invariant Ascending(Before, schema)
      invariant forall k :: k in schema <==> k in keys[..i] && IsSchema(s, nodes, k)
    {
      OneMore(keys, i);
      if IsSchema(s, nodes, keys[i]) {
        PushAscends(s, schema, i);
        schema := schema + [keys[i]];
      }
    }
    assert keys[..|keys|] == keys;
  }

  /** Classifications of the nodes in scope and edges between them, in state order. */
  method Followers(s: Objects, nodes: seq<Key>) returns (rest: seq<Key>)
    ensures forall k :: k in rest <==> k in s && Follows(s, nodes, k)
    ensures Ascending(Before, rest)
  {
    hide Follows, InOrder, Before;
    rest := [];
    var keys := InOrder(s.Keys);
    for i := 0 to |keys|
      invariant Ascending(Before, rest)
      invariant forall k :: k in rest <==> k in keys[..i] && Follows(s, nodes, k)
    {
      OneMore(keys, i);
      if Follows(s, nodes, keys[i]) {
        PushAscends(s, rest, i);
        rest := rest + [keys[i]];
      }
    }
    assert keys[..|keys|] == keys;
  }

  /** What each pass of a disclosure lists, each in state order. */
  ghost predicate ArePasses(reg: Registry, s: Objects, region: string, nodes: seq<Key>, schema: seq<Key>, rest: seq<Key>) {
    && Ascending(Before, nodes) && Ascending(Before, schema) && Ascending(Before, rest)
    && (forall k :: k in nodes <==> k in s && InScope(reg, s, k, region))
    && (forall k :: k in schema <==> k in s && IsSchema(s, nodes, k))
    && (forall k :: k in rest <==> k in s && Follows(s, nodes, k))
  }

  /** The passes of a disclosure one after the other. */
  ghost predicate InPasses(reg: Registry, s: Objects, region: string, keys: seq<Key>) {
    exists nodes, schema, rest :: ArePasses(reg, s, region, nodes, schema, rest) && keys == nodes + schema + rest
  }

  /** Nodes in scope, then the schema, then what hangs on the nodes in scope. */
  method DisclosedKeys(reg: Registry, s: Objects, region: string) returns (keys: seq<Key>)
    ensures InPasses(reg, s, region, keys)
  {
    hide InScope, IsSchema, Follows, Before;
    var nodes := ScopeNodes(reg, s, region);
    var schema := SchemaNodes(s, nodes);
    var rest := Followers(s, nodes);
    keys := nodes + schema + rest;
    assert ArePasses(reg, s, region, nodes, schema, rest);
  }

  lemma PassesAreDistinct(reg: Registry, s: Objects, region: string, nodes: seq<Key>, schema: seq<Key>, rest: seq<Key>)
    requires ArePasses(reg, s, region, nodes, schema, rest)
    ensures Distinct(nodes + schema + rest)
  {
    hide InScope, IsSchema, Follows, Before;
    BeforeIsOrder();
    AscendingDistinct(Before, nodes);
    AscendingDistinct(Before, schema);
    AscendingDistinct(Before, rest);
    assert Distinct(nodes) && Distinct(schema) && Distinct(rest);
    hide Distinct;
    forall k | k in schema ensures k !in nodes {
      SchemaIsNew(s, nodes, k);
    }
    DistinctJoin(nodes, schema);
    forall k | k in rest ensures k !in nodes + schema {
      FollowersAreNew(reg, s, region, nodes, k);
    }
    DistinctJoin(nodes + schema, rest);
  }

  /** The passes disclose exactly what is to be disclosed, and nothing twice. */
  lemma PassesDisclose(reg: Registry, s: Objects, region: string, keys: seq<Key>)
    requires InPasses(reg, s, region, keys)
    ensures forall k :: k in keys <==> k in s && IsDisclosed(reg, s, k, region)
    ensures Distinct(keys)
  {
    hide InScope, IsSchema, Follows, Before, IsDisclosed, Distinct;
    var nodes, schema, rest :| ArePasses(reg, s, region, nodes, schema, rest) && keys == nodes + schema + rest;
    PassesAreDistinct(reg, s, region, nodes, schema, rest);
    forall k ensures k in keys <==> k in s && IsDisclosed(reg, s, k, region) {
      FollowsIsDisclosed(reg, s, region, nodes, k);
    }
  }

  lemma SchemaIsNew(s: Objects, nodes: seq<Key>, k: Key)
    requires IsSchema(s, nodes, k)
    ensures k !in nodes
  {
  }

  lemma FollowsIsDisclosed(reg: Registry, s: Objects, region: string, nodes: seq<Key>, k: Key)
    requires forall j :: j in nodes <==> j in s && InScope(reg, s, j, region)
    ensures k in s ==> ((k in nodes || IsSchema(s, nodes, k) || Follows(s, nodes, k)) <==> IsDisclosed(reg, s, k, region))
  {
    hide InScope, IsMetaNode;
    assert IsSchema(s, nodes, k) <==> IsMetaNode(s, k) && k !in nodes;
    assert forall r :: RefersTo(nodes, r) <==> Covered(reg, s, r, region);
  }

  method DiscloseAll(sha: Sha, s: Objects, keys: seq<Key>) returns (objects: seq<Value>)
    requires forall k :: k in keys ==> k in s
    ensures |objects| == |keys|
    ensures forall i :: 0 <= i < |keys| ==> Discloses(sha, s, keys[i], objects[i])
  {
    hide Discloses;
    objects := [];
    for i := 0 to |keys|
      invariant |objects| == i
      invariant forall j :: 0 <= j < i ==> Discloses(sha, s, keys[j], objects[j])
    {
      var v := DiscloseOne(sha, s, keys[i]);
      objects := objects + [v];
    }
  }

  method DiscloseOne(sha: Sha, s: Objects, k: Key) returns (v: Value)
    requires k in s
    ensures Discloses(sha, s, k, v)
  {
    hide Entries, EntriesOf, EntryAt, LeafTexts, InOrder, PathFrom, StateLeaves, StateHash, Verifies, Sha256Hex, ObjectValue, Before;
    var order, entries := InOrder(s.Keys), Entries(s);
    assert k in order;
    var index := 0;
    while order[index] != k
      invariant 0 <= index < |order|
      invariant k in order[index..]
      decreases |order| - index
    {
      assert order[index..] == [order[index]] + order[index + 1..];
      index := index + 1;
    }
    EntriesShape(sha, s, index);
    var path := MerklePath(sha, STATE.node, StateLeaves(sha, entries), index);
    v := ObjectValue(entries[index], s[k].content, path.value);
  }

  lemma EntriesShape(sha: Sha, s: Objects, index: nat)
    requires index < |InOrder(s.Keys)|
    ensures |Entries(s)| == |InOrder(s.Keys)| && Entries(s)[index] == EntryAt(s, InOrder(s.Keys)[index])
    ensures |StateLeaves(sha, Entries(s))| == |Entries(s)|
    ensures PathFrom(sha, STATE.node, StateLeaves(sha, Entries(s)), index).Some?
    ensures StateHash(sha, s).Some?
    ensures StateLeaves(sha, Entries(s))[index] == Sha256Hex(sha, STATE.leaf, Canonical(EntryAt(s, InOrder(s.Keys)[index])))
    ensures Verifies(sha, STATE.node, StateLeaves(sha, Entries(s))[index],
                     PathFrom(sha, STATE.node, StateLeaves(sha, Entries(s)), index).value, StateHash(sha, s).value)
  {
    hide PathFrom, Root, Canonical;
    MembershipComplete(sha, STATE, Payloads(Entries(s)), index);
  }

  lemma HasStateHash(sha: Sha, s: Objects, k: Key)
    requires k in s
    ensures StateHash(sha, s).Some?
  {
    assert k in InOrder(s.Keys);
    EntriesShape(sha, s, 0);
  }

  /** The checkpoint a bundle is anchored to. */
  function Checkpoint(revision: string, stateHash: string, timestamp: string, signer: string): map<string, Value> {
    map["kind" := Str("checkpoint"), "revision" := Str(revision), "state_hash" := Str(stateHash), "timestamp" := Str(timestamp), "signer" := Str(signer)]
  }

  function BundleValue(graphId: string, grant: Value, checkpoint: Value, objects: seq<Value>): Value {
    Map(map["kind" := Str("share-bundle"), "graph_id" := Str(graphId), "grant" := grant, "checkpoint" := checkpoint, "objects" := Seq(objects)])
  }

  /** Who makes the bundle, and when. */
  datatype Issuer = Issuer(graphId: string, head: string, principal: string, timestamp: string, sign: string -> string)

  function SignedCheckpoint(sha: Sha, issuer: Issuer, stateHash: string): Value {
    var c := Checkpoint(issuer.head, stateHash, issuer.timestamp, "principal:" + issuer.principal);
    Map(c["signature" := Str(issuer.sign(SignedPayload(sha, Map(c), "checkpoint")))])
  }

  /** The grant as the bundle carries it. */
  function GrantRef(attrs: Value, id: string): Value {
    if attrs.Map? then Map(attrs.m["id" := Str(id)]) else attrs
  }

  function RegionOf(attrs: Value): Option<string> {
    match Get(attrs, "scope") case Some(scope) => GetStr(scope, "region") case None => None
  }

  /** What a grant needs before a bundle can be made for it. */
  ghost predicate Grants(s: Objects, grantId: string) {
    && GetLive(s, "node", grantId).Some?
    && Get(GetLive(s, "node", grantId).value.content, "attributes").Some?
    && RegionOf(Get(GetLive(s, "node", grantId).value.content, "attributes").value).Some?
  }

  function GrantAttributes(s: Objects, grantId: string): Value {
    match GetLive(s, "node", grantId)
    case Some(o) => Get(o.content, "attributes").GetOr(Null)
    case None => Null
  }

  function GrantRegion(s: Objects, grantId: string): string {
    RegionOf(GrantAttributes(s, grantId)).GetOr("")
  }

  /** The node is live and its attributes name the region to share. */
  ghost predicate Scopes(s: Objects, grantId: string, region: string) {
    && ("node", grantId) in s && !s[("node", grantId)].deleted && Get(s[("node", grantId)].content, "attributes").Some?
    && var attributes := Get(s[("node", grantId)].content, "attributes").value;
       Get(attributes, "scope").Some? && GetStr(Get(attributes, "scope").value, "region") == Some(region)
  }

  lemma GrantScopes(s: Objects, grantId: string, region: string)
    ensures Scopes(s, grantId, region) <==> Grants(s, grantId) && GrantRegion(s, grantId) == region
  {
  }

  /** `keys` lists each disclosed object once, and `objects` discloses them in that order. */
  ghost predicate DisclosesExactly(sha: Sha, reg: Registry, s: Objects, region: string, keys: seq<Key>, objects: seq<Value>) {
    && |objects| == |keys|
    && InPasses(reg, s, region, keys)
    && Distinct(keys)
    && (forall k :: k in keys <==> k in s && IsDisclosed(reg, s, k, region))
    && (forall i :: 0 <= i < |keys| ==> Discloses(sha, s, keys[i], objects[i]))
  }

  method MakeBundle(sha: Sha, reg: Registry, s: Objects, grantId: string, issuer: Issuer)
    returns (r: Result<Value>, ghost keys: seq<Key>, ghost objects: seq<Value>)
    ensures r.Ok? <==> Grants(s, grantId)
    ensures forall region :: Scopes(s, grantId, region) <==> r.Ok? && GrantRegion(s, grantId) == region
    ensures r.Ok? ==>
              && StateHash(sha, s).Some?
              && DisclosesExactly(sha, reg, s, GrantRegion(s, grantId), keys, objects)
              && r.value == BundleValue(issuer.graphId, GrantRef(GrantAttributes(s, grantId), grantId),
                                        SignedCheckpoint(sha, issuer, StateHash(sha, s).value), objects)
  {
    hide IsDisclosed, Discloses, SignedCheckpoint, Distinct, StateHash, BundleValue, GrantRef, InPasses, Scopes;
    keys, objects := [], [];
    forall region ensures Scopes(s, grantId, region) <==> Grants(s, grantId) && GrantRegion(s, grantId) == region {
      GrantScopes(s, grantId, region);
    }
    var grant := GetLive(s, "node", grantId);
    if grant.None? {
      return Err("no live grant with that id"), keys, objects;
    }
    var attrs := Get(grant.value.content, "attributes");
    if attrs.None? {
      return Err("grant has no attributes"), keys, objects;
    }
    var region := RegionOf(attrs.value);
    if region.None? {
      return Err("grant scope needs a region"), keys, objects;
    }
    HasStateHash(sha, s, ("node", grantId));
    var selected := DisclosedKeys(reg, s, region.value);
    PassesDisclose(reg, s, region.value, selected);
    var disclosed := DiscloseAll(sha, s, selected);
    keys, objects := selected, disclosed;
    r := Ok(BundleValue(issuer.graphId, GrantRef(attrs.value, grantId), SignedCheckpoint(sha, issuer, StateHash(sha, s).value), disclosed));
  }

  // ---------------------------------------------------------------- verifying a bundle

  /** The first root key of a live peer record for the graph. */
  function PeerKeyAt(s: Objects, k: Key, source: string): Option<string> {
    if !LiveOfKind(s, k, "node") then None
    else
      var c := s[k].content;
      if Get(c, "attributes").None? || GetStr(c, "type").None? || Bare(GetStr(c, "type").value) != "core/Peer"
         || GetStr(AttributesOf(c), "graph_id") != Some(source) then None
      else
        match GetSeq(AttributesOf(c), "root_keys")
        case None => None
        case Some(keys) => if keys == [] then None else AsStr(keys[0])
  }

  function FirstPeerKey(s: Objects, keys: seq<Key>, source: string): Option<string> {
    if keys == [] then None
    else
      match PeerKeyAt(s, keys[0], source)
      case Some(pk) => Some(pk)
      case None => FirstPeerKey(s, keys[1..], source)
  }

  function PeerKey(s: Objects, source: string): Option<string> {
    FirstPeerKey(s, InOrder(s.Keys), source)
  }

  /** One object: its content has the entry's revision, and the entry is under the state hash. */
  function CheckObject(sha: Sha, obj: Value, stateHash: string): Result<()> {
    var entry :- OrErr(Get(obj, "entry"), "object needs entry");
    var content :- OrErr(Get(obj, "content"), "object needs content");
    if RevisionHash(sha, content) != GetStr(entry, "rev").GetOr("") then Err("content does not match its revision")
    else if !Verifies(sha, STATE.node, Sha256Hex(sha, STATE.leaf, Canonical(entry)), ProofOf(obj), stateHash) then Err("membership proof fails")
    else Ok(())
  }

  function CheckObjects(sha: Sha, objects: seq<Value>, stateHash: string): Result<()> {
    if objects == [] then Ok(())
    else
      var _ :- CheckObject(sha, objects[0], stateHash);
      CheckObjects(sha, objects[1..], stateHash)
  }

  function AudienceOf(bundle: Value): string {
    match Get(bundle, "grant") case Some(g) => GetStr(g, "audience").GetOr("") case None => ""
  }

  /** What a successful verification reports. */
  datatype Verified = Verified(peerKey: string, source: string, stateHash: string, count: nat)

  /** The state hash of a checkpoint the registered peer has signed. */
  function CheckedCheckpoint(trust: Trust, local: Objects, bundle: Value): Result<(string, string, string)> {
    var source :- OrErr(GetStr(bundle, "graph_id"), "bundle needs graph_id");
    var pk :- OrErr(PeerKey(local, source), "no peer record for graph");
    var checkpoint :- OrErr(Get(bundle, "checkpoint"), "bundle needs checkpoint");
    if !trust.verify(pk, SignedPayload(trust.sha, checkpoint, "checkpoint"), GetStr(checkpoint, "signature").GetOr("")) then
      Err("checkpoint signature")
    else
      var stateHash :- OrErr(GetStr(checkpoint, "state_hash"), "checkpoint needs state_hash");
      Ok((pk, source, stateHash))
  }

  function VerifyBundle(trust: Trust, local: Objects, myId: string, bundle: Value): Result<Verified> {
    var (pk, source, stateHash) :- CheckedCheckpoint(trust, local, bundle);
    if AudienceOf(bundle) != myId && AudienceOf(bundle) != "public" then Err("grant audience is not this graph")
    else
      var objects :- OrErr(GetSeq(bundle, "objects"), "bundle needs objects");
      var _ :- CheckObjects(trust.sha, objects, stateHash);
      Ok(Verified(pk, source, stateHash, |objects|))
  }

  lemma {:induction false} EveryObjectChecked(sha: Sha, objects: seq<Value>, stateHash: string)
    ensures CheckObjects(sha, objects, stateHash).Ok? <==> forall o :: o in objects ==> CheckObject(sha, o, stateHash).Ok?
  {
    hide CheckObject;
    if objects == [] {
    } else {
      EveryObjectChecked(sha, objects[1..], stateHash);
      assert objects == [objects[0]] + objects[1..];
    }
  }

  // ---------------------------------------------------------------- what an accepted bundle went through

  /** A live record that names the key of the graph: a `core/Peer` node for it, with the key first among its root keys. */
  ghost predicate NamesPeer(local: Objects, k: Key, source: string, key: string) {
    && k in local && k.0 == "node" && !local[k].deleted
    && GetStr(local[k].content, "type").Some? && Bare(GetStr(local[k].content, "type").value) == "core/Peer"
    && Get(local[k].content, "attributes").Some?
    && var attributes := Get(local[k].content, "attributes").value;
       && GetStr(attributes, "graph_id") == Some(source)
       && GetSeq(attributes, "root_keys").Some? && GetSeq(attributes, "root_keys").value != []
       && GetSeq(attributes, "root_keys").value[0] == Str(key)
  }

  /** The first record, in state order, that names a key of the graph. */
  ghost predicate IsPeer(local: Objects, k: Key, source: string, key: string) {
    NamesPeer(local, k, source, key) && forall j, other :: NamesPeer(local, j, source, other) ==> j == k || Before(k, j)
  }

  /** The key signs the checkpoint: the hash of the document without its signature. */
  ghost predicate Signs(trust: Trust, key: string, checkpoint: Value) {
    trust.verify(key, HashValue(trust.sha, "checkpoint", Remove(checkpoint, "signature")), GetStr(checkpoint, "signature").GetOr(""))
  }

  /** The content has the revision its entry states, and the entry's leaf climbs to the state hash. */
  ghost predicate Proves(sha: Sha, obj: Value, stateHash: string) {
    && Get(obj, "entry").Some? && Get(obj, "content").Some?
    && HashValue(sha, "object", Remove(Get(obj, "content").value, "rev")) == GetStr(Get(obj, "entry").value, "rev").GetOr("")
    && Verifies(sha, "state-node", Sha256Hex(sha, "state-leaf", Canonical(Get(obj, "entry").value)), ProofOf(obj), stateHash)
  }

  /** What is reported of a bundle is its graph, that graph's peer key, and a checkpoint the key signs. */
  ghost predicate Vouched(trust: Trust, local: Objects, bundle: Value, v: Verified) {
    && GetStr(bundle, "graph_id") == Some(v.source)
    && (exists k :: IsPeer(local, k, v.source, v.peerKey))
    && Get(bundle, "checkpoint").Some? && Signs(trust, v.peerKey, Get(bundle, "checkpoint").value)
    && GetStr(Get(bundle, "checkpoint").value, "state_hash") == Some(v.stateHash)
  }

  /** The bundle is vouched for, addressed to this graph or to everyone, and proves every object. */
  ghost predicate Acceptable(trust: Trust, local: Objects, myId: string, bundle: Value, v: Verified) {
    && Vouched(trust, local, bundle, v)
    && (match Get(bundle, "grant") case Some(g) => GetStr(g, "audience").GetOr("") in {myId, "public"} case None => "" in {myId, "public"})
    && GetSeq(bundle, "objects").Some? && v.count == |GetSeq(bundle, "objects").value|
    && forall obj :: obj in GetSeq(bundle, "objects").value ==> Proves(trust.sha, obj, v.stateHash)
  }

  lemma PeerKeyIs(local: Objects, k: Key, source: string)
    requires k in local
    ensures forall key :: PeerKeyAt(local, k, source) == Some(key) <==> NamesPeer(local, k, source, key)
  {
  }

  lemma {:induction false} FirstPeerIs(local: Objects, keys: seq<Key>, source: string)
    requires Ascending(Before, keys) && forall k :: k in keys ==> k in local
    ensures FirstPeerKey(local, keys, source).Some? ==>
              exists k :: k in keys && NamesPeer(local, k, source, FirstPeerKey(local, keys, source).value)
                       && forall j, other :: j in keys && NamesPeer(local, j, source, other) ==> j == k || Before(k, j)
    ensures FirstPeerKey(local, keys, source).None? ==> forall j, other :: j in keys ==> !NamesPeer(local, j, source, other)
  {
    hide PeerKeyAt, NamesPeer, Before;
    if keys == [] {
    } else {
      var rest := keys[1..];
      assert keys == [keys[0]] + rest;
      PeerKeyIs(local, keys[0], source);
      if PeerKeyAt(local, keys[0], source).Some? {
        forall j | j in keys ensures j == keys[0] || Before(keys[0], j) {
          var i :| 0 <= i < |keys| && keys[i] == j;
        }
      } else {
        FirstPeerIs(local, rest, source);
      }
    }
  }

  lemma PeerIs(local: Objects, source: string)
    ensures PeerKey(local, source).Some? ==> exists k :: IsPeer(local, k, source, PeerKey(local, source).value)
    ensures PeerKey(local, source).None? ==> forall k, key :: !NamesPeer(local, k, source, key)
  {
    hide NamesPeer, Before, FirstPeerKey;
    FirstPeerIs(local, InOrder(local.Keys), source);
    forall k, key | NamesPeer(local, k, source, key) ensures k in InOrder(local.Keys) {
      PeerIsThere(local, k, source, key);
    }
    hide InOrder;
    if PeerKey(local, source).Some? {
      var key := PeerKey(local, source).value;
      var k :| k in InOrder(local.Keys) && NamesPeer(local, k, source, key)
               && forall j, other :: j in InOrder(local.Keys) && NamesPeer(local, j, source, other) ==> j == k || Before(k, j);
      assert IsPeer(local, k, source, key);
    }
  }

  lemma PeerIsThere(local: Objects, k: Key, source: string, key: string)
    requires NamesPeer(local, k, source, key)
    ensures k in local
  {
  }

  /** There is one such key. */
  lemma OnePeer(local: Objects, j: Key, k: Key, source: string, a: string, b: string)
    requires IsPeer(local, j, source, a) && IsPeer(local, k, source, b)
    ensures a == b
  {
    BeforeIsOrder();
    hide Before;
  }

  lemma CheckpointIs(trust: Trust, local: Objects, bundle: Value)
    ensures CheckedCheckpoint(trust, local, bundle).Ok? ==>
              var (key, source, stateHash) := CheckedCheckpoint(trust, local, bundle).value;
              forall n: nat :: Vouched(trust, local, bundle, Verified(key, source, stateHash, n))
    ensures forall v :: Vouched(trust, local, bundle, v) ==> CheckedCheckpoint(trust, local, bundle) == Ok((v.peerKey, v.source, v.stateHash))
  {
    hide PeerKey, IsPeer, NamesPeer, HashValue, Remove, GetStr;
    if GetStr(bundle, "graph_id").Some? {
      PeerIs(local, GetStr(bundle, "graph_id").value);
    }
    forall v | Vouched(trust, local, bundle, v) ensures CheckedCheckpoint(trust, local, bundle) == Ok((v.peerKey, v.source, v.stateHash)) {
      var k :| IsPeer(local, k, v.source, v.peerKey);
      assert PeerKey(local, v.source).Some? by {
        PeerNamed(local, k, v.source, v.peerKey);
      }
      var j :| IsPeer(local, j, v.source, PeerKey(local, v.source).value);
      OnePeer(local, j, k, v.source, PeerKey(local, v.source).value, v.peerKey);
    }
  }

  lemma PeerNamed(local: Objects, k: Key, source: string, key: string)
    requires IsPeer(local, k, source, key)
    ensures NamesPeer(local, k, source, key)
  {
    hide NamesPeer;
  }

  lemma CheckedProves(sha: Sha, obj: Value, stateHash: string)
    ensures CheckObject(sha, obj, stateHash).Ok? <==> Proves(sha, obj, stateHash)
  {
    hide Verifies, Sha256Hex, Canonical, Remove, ProofOf;
  }

  lemma VerifiedIs(trust: Trust, local: Objects, myId: string, bundle: Value)
    ensures forall v :: VerifyBundle(trust, local, myId, bundle) == Ok(v) <==> Acceptable(trust, local, myId, bundle, v)
  {
    CheckpointIs(trust, local, bundle);
    hide CheckedCheckpoint, CheckObject, Vouched, Proves;
    forall obj, h ensures CheckObject(trust.sha, obj, h).Ok? <==> Proves(trust.sha, obj, h) {
      CheckedProves(trust.sha, obj, h);
    }
    forall h ensures GetSeq(bundle, "objects").Some? ==>
        (CheckObjects(trust.sha, GetSeq(bundle, "objects").value, h).Ok? <==> forall o :: o in GetSeq(bundle, "objects").value ==> Proves(trust.sha, o, h))
    {
      if GetSeq(bundle, "objects").Some? {
        EveryObjectChecked(trust.sha, GetSeq(bundle, "objects").value, h);
      }
    }
    hide CheckObjects;
  }

  /** A bundle is accepted exactly when it is acceptable, and what is reported is what makes it so. */
  method VerifyBundleLoop(trust: Trust, local: Objects, myId: string, bundle: Value) returns (r: Result<Verified>)
    ensures r == VerifyBundle(trust, local, myId, bundle)
    ensures r.Ok? ==> Acceptable(trust, local, myId, bundle, r.value)
    ensures r.Err? ==> forall v :: !Acceptable(trust, local, myId, bundle, v)
  {
    VerifiedIs(trust, local, myId, bundle);
    hide CheckObject, CheckedCheckpoint, Acceptable;
    var checked := CheckedCheckpoint(trust, local, bundle);
    if checked.Err? {
      return Err(checked.error);
    }
    if AudienceOf(bundle) != myId && AudienceOf(bundle) != "public" {
      return Err("grant audience is not this graph");
    }
    if GetSeq(bundle, "objects").None? {
      return Err("bundle needs objects");
    }
    var objects, stateHash := GetSeq(bundle, "objects").value, checked.value.2;
    assert objects[0..] == objects;
    for i := 0 to |objects|
      invariant CheckObjects(trust.sha, objects, stateHash) == CheckObjects(trust.sha, objects[i..], stateHash)
    {
      var one := CheckObject(trust.sha, objects[i], stateHash);
      assert objects[i..][1..] == objects[i + 1..];
      if one.Err? {
        return Err(one.error);
      }
    }
    r := Ok(Verified(checked.value.0, checked.value.1, stateHash, |objects|));
  }
}
