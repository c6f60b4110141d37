/**
 * What an accepted bundle proves, and which bundles are accepted
 * (crates/allod-graph/src/fed.rs:129-412): the hash, Merkle and fold results put together.
 */
module Disclosure {
  import opened Text
  import opened Values
  import opened Canon
  import opened Hashing
  import opened Merkle
  import opened Model
  import opened Objects
  import opened Registries
  import opened Quorum
  import opened FoldInvariant
  import opened Bundle
  import Replay
  import Store

  // ---------------------------------------------------------------- soundness

  function ObjectImage(content: Value): Bytes {
    Tagged("object", Canonical(Remove(content, "rev")))
  }

  function LeafOf(sha: Sha, entry: Value): string {
    Sha256Hex(sha, STATE.leaf, Canonical(entry))
  }

  /** The preimages the verifier hashes for one object are in play. */
  ghost predicate ReceivedInPlay(sha: Sha, obj: Value, images: set<Bytes>) {
    var entry, content := Get(obj, "entry").GetOr(Null), Get(obj, "content").GetOr(Null);
    && Fits(entry) && Fits(content)
    && ObjectImage(content) in images
    && Tagged(STATE.leaf, Canonical(entry)) in images
    && ClimbImages(sha, STATE, LeafOf(sha, entry), ProofOf(obj)) <= images
  }

  /** Equal revision hashes mean equal contents, up to a `rev` field. */
  lemma RevisionBinds(sha: Sha, a: Value, b: Value, images: set<Bytes>)
    requires CollisionFree(sha, images)
    requires Fits(a) && Fits(b) && ObjectImage(a) in images && ObjectImage(b) in images
    requires RevisionHash(sha, a) == RevisionHash(sha, b)
    ensures Remove(a, "rev") == Remove(b, "rev")
  {
    RemoveFits(a, "rev");
    RemoveFits(b, "rev");
    hide Remove, Fits, Canonical, Tagged;
    ValueHashBinds(sha, images, "object", Remove(a, "rev"), Remove(b, "rev"));
  }

  lemma PayloadOfEntry(s: Objects, entry: Value)
    requires FitsKeys(s) && Fits(entry)
    requires Canonical(entry) in Payloads(Entries(s))
    ensures exists k :: k in s && entry == EntryAt(s, k)
  {
    var i :| 0 <= i < |Entries(s)| && Payloads(Entries(s))[i] == Canonical(entry);
    var k := InOrder(s.Keys)[i];
    assert k in s && Entries(s)[i] == EntryAt(s, k);
    EntryFits(s, k);
    Injective(entry, EntryAt(s, k));
  }

  /** A verified proof reaches the root only from an entry of the state. */
  lemma EntryIsInState(sha: Sha, s: Objects, entry: Value, path: seq<Merkle.Step>, images: set<Bytes>)
    requires StateInPlay(sha, s, images)
    requires Fits(entry) && Tagged(STATE.leaf, Canonical(entry)) in images
    requires ClimbImages(sha, STATE, LeafOf(sha, entry), path) <= images
    requires StateHash(sha, s).Some?
    requires Verifies(sha, STATE.node, LeafOf(sha, entry), path, StateHash(sha, s).value)
    ensures exists k :: k in s && entry == EntryAt(s, k)
  {
    hide Entries, Fits, StateImages, Canonical, Verifies, ClimbImages, TreeImages, TreeOf;
    StateFacts(sha, s, images);
    DomainsValid();
    MembershipSound(sha, STATE, Payloads(Entries(s)), Canonical(entry), path, images);
    PayloadOfEntry(s, entry);
  }

  /** What the receiver may conclude about one disclosed object. */
  ghost predicate Authentic(sha: Sha, s: Objects, obj: Value, k: Key, images: set<Bytes>) {
    && k in s
    && Get(obj, "entry") == Some(EntryAt(s, k))
    && Get(obj, "content").Some?
    && RevisionHash(sha, Get(obj, "content").value) == s[k].rev
    && forall c :: Fits(c) && ObjectImage(c) in images && RevisionHash(sha, c) == s[k].rev ==>
         Remove(Get(obj, "content").value, "rev") == Remove(c, "rev")
  }

  lemma EntryRev(s: Objects, k: Key)
    requires k in s
    ensures GetStr(EntryAt(s, k), "rev") == Some(s[k].rev)
  {
  }

  lemma CheckedObjectIsAuthentic(sha: Sha, s: Objects, obj: Value, stateHash: string, images: set<Bytes>) returns (k: Key)
    requires StateInPlay(sha, s, images) && StateHash(sha, s) == Some(stateHash)
    requires ReceivedInPlay(sha, obj, images)
    requires CheckObject(sha, obj, stateHash).Ok?
    ensures Authentic(sha, s, obj, k, images)
  {
    hide EntryAt, Fits, Canonical, Tagged, RevisionHash, ClimbImages, Remove, StateHash, Verifies, ProofOf, StateImages, FitsKeys, ObjectImage;
    var entry, content := Get(obj, "entry").value, Get(obj, "content").value;
    assert ObjectImage(content) in images && Fits(content);
    EntryIsInState(sha, s, entry, ProofOf(obj), images);
    k :| k in s && entry == EntryAt(s, k);
    EntryRev(s, k);
    forall c | Fits(c) && ObjectImage(c) in images && RevisionHash(sha, c) == s[k].rev
      ensures Remove(content, "rev") == Remove(c, "rev")
    {
      RevisionBinds(sha, content, c, images);
    }
  }

  /** The contents a state still holds. */
  ghost predicate ContentsInPlay(s: Objects, images: set<Bytes>) {
    forall k :: k in s && !s[k].redacted ==> Fits(s[k].content) && ObjectImage(s[k].content) in images
  }

  /** The received object is this object of the state: authentic, and with the content the state still holds, if it does. */
  ghost predicate Matches(sha: Sha, s: Objects, obj: Value, k: Key, images: set<Bytes>) {
    && Authentic(sha, s, obj, k, images)
    && (!s[k].redacted ==> Remove(Get(obj, "content").value, "rev") == Remove(s[k].content, "rev"))
  }

  lemma AcceptedMatches(trust: Trust, local: Objects, myId: string, bundle: Value, s: Objects, images: set<Bytes>, obj: Value)
    returns (k: Key)
    requires VerifyBundle(trust, local, myId, bundle).Ok?
    requires Inv(trust.sha, s) && StateInPlay(trust.sha, s, images) && ContentsInPlay(s, images)
    requires StateHash(trust.sha, s) == Some(VerifyBundle(trust, local, myId, bundle).value.stateHash)
    requires obj in GetSeq(bundle, "objects").GetOr([]) && ReceivedInPlay(trust.sha, obj, images)
    ensures Matches(trust.sha, s, obj, k, images)
  {
    hide CheckObject, CheckedCheckpoint, StateHash, ReceivedInPlay, StateInPlay, EdgesJoinNodes, FoldInvariant.Names, Shaped, Recorded, EdgeOk, Fits, RevisionHash;
    var stateHash := CheckedCheckpoint(trust, local, bundle).value.2;
    EveryObjectChecked(trust.sha, GetSeq(bundle, "objects").value, stateHash);
    k := CheckedObjectIsAuthentic(trust.sha, s, obj, stateHash, images);
    assert ObjectOk(trust.sha, k, s[k]);
  }

  /** `s` is what the graph's log folds to, up to the revision a checkpoint was taken at. */
  ghost predicate IsFolded(env: Replay.Env, log: map<string, Value>, head: Option<string>, revision: Option<string>, s: Objects) {
    Store.Ends(log, head) && Store.Folded(env, log, head, revision) == Ok(s)
  }

  /**
   * The key is the issuer's alone: it verifies nothing but checkpoints the issuer has issued, and those
   * state the hashes of states the issuer's log folds to.
   */
  ghost predicate Honest(trust: Trust, key: string, env: Replay.Env, log: map<string, Value>, head: Option<string>, issued: set<Value>, images: set<Bytes>) {
    && (forall m, signature :: trust.verify(key, m, signature) ==> exists c :: c in issued && m == HashValue(trust.sha, "checkpoint", c))
    && (forall c :: c in issued ==> CheckpointInPlay(c, images) && OfFold(trust.sha, c, env, log, head))
  }

  ghost predicate CheckpointInPlay(c: Value, images: set<Bytes>) {
    Fits(c) && Tagged("checkpoint", Canonical(c)) in images
  }

  /** The checkpoint states the hash of a state the log folds to. */
  ghost predicate OfFold(sha: Sha, c: Value, env: Replay.Env, log: map<string, Value>, head: Option<string>) {
    exists revision, s :: IsFolded(env, log, head, revision, s) && StateHash(sha, s).Some? && GetStr(c, "state_hash") == StateHash(sha, s)
  }

  /** The states the log folds to are in play. */
  ghost predicate FoldsInPlay(sha: Sha, env: Replay.Env, log: map<string, Value>, head: Option<string>, images: set<Bytes>) {
    forall revision, s :: IsFolded(env, log, head, revision, s) && StateHash(sha, s).Some? ==> StateInPlay(sha, s, images) && ContentsInPlay(s, images)
  }

  lemma UnsignedFields(c: Value)
    ensures GetStr(Remove(c, "signature"), "state_hash") == GetStr(c, "state_hash")
  {
  }

  /** What the verifier calls the state hash is the hash of a state the issuer's log folds to. */
  lemma VouchedIsFolded(trust: Trust, local: Objects, bundle: Value, v: Verified, env: Replay.Env, log: map<string, Value>, head: Option<string>,
                        issued: set<Value>, images: set<Bytes>)
    returns (revision: Option<string>, s: Objects)
    requires Vouched(trust, local, bundle, v) && Honest(trust, v.peerKey, env, log, head, issued, images) && CollisionFree(trust.sha, images)
    requires CheckpointInPlay(Remove(Get(bundle, "checkpoint").value, "signature"), images)
    ensures IsFolded(env, log, head, revision, s) && StateHash(trust.sha, s) == Some(v.stateHash)
  {
    hide IsFolded, StateHash, IsPeer, Canonical, Fits, Tagged, Remove, HashValue, CollisionFree, GetStr;
    var checkpoint := Get(bundle, "checkpoint").value;
    var received := Remove(checkpoint, "signature");
    var c :| c in issued && HashValue(trust.sha, "checkpoint", received) == HashValue(trust.sha, "checkpoint", c);
    assert ':' !in "checkpoint";
    ValueHashBinds(trust.sha, images, "checkpoint", received, c);
    UnsignedFields(checkpoint);
    revision, s :| IsFolded(env, log, head, revision, s) && StateHash(trust.sha, s).Some? && GetStr(c, "state_hash") == StateHash(trust.sha, s);
  }

  /**
   * The peer's key being the issuer's alone, every object of an accepted bundle is an object of one
   * state the issuer's log folds to: its entry is that object's entry, and its content is the recorded
   * content, up to a `rev` field.
   */
  lemma AcceptedIsAuthentic(trust: Trust, local: Objects, myId: string, bundle: Value, env: Replay.Env, log: map<string, Value>, head: Option<string>,
                            issued: set<Value>, images: set<Bytes>)
    returns (revision: Option<string>, s: Objects)
    requires VerifyBundle(trust, local, myId, bundle).Ok? && env.sha == trust.sha
    requires Honest(trust, VerifyBundle(trust, local, myId, bundle).value.peerKey, env, log, head, issued, images)
    requires CollisionFree(trust.sha, images) && FoldsInPlay(trust.sha, env, log, head, images)
    requires Get(bundle, "checkpoint").Some? ==> CheckpointInPlay(Remove(Get(bundle, "checkpoint").value, "signature"), images)
    ensures IsFolded(env, log, head, revision, s) && StateHash(trust.sha, s) == Some(VerifyBundle(trust, local, myId, bundle).value.stateHash)
    ensures forall obj :: obj in GetSeq(bundle, "objects").GetOr([]) && ReceivedInPlay(trust.sha, obj, images) ==> exists k :: Matches(trust.sha, s, obj, k, images)
  {
    hide VerifyBundle, Inv, StateInPlay, ContentsInPlay, StateHash, ReceivedInPlay, Matches, Store.Folded, Honest, IsPeer, CheckpointInPlay, Proves,
         CollisionFree, Remove, Signs;
    VerifiedIs(trust, local, myId, bundle);
    var v := VerifyBundle(trust, local, myId, bundle).value;
    revision, s := VouchedIsFolded(trust, local, bundle, v, env, log, head, issued, images);
    Store.FoldedKeepsInv(env, log, head, revision);
    forall obj | obj in GetSeq(bundle, "objects").GetOr([]) && ReceivedInPlay(trust.sha, obj, images)
      ensures exists k :: Matches(trust.sha, s, obj, k, images)
    {
      var k := AcceptedMatches(trust, local, myId, bundle, s, images, obj);
      assert Matches(trust.sha, s, obj, k, images);
    }
  }

  // ---------------------------------------------------------------- completeness

  /** What `MakeBundle` returns for a grant. */
  ghost predicate Made(sha: Sha, reg: Registry, s: Objects, grantId: string, issuer: Issuer, keys: seq<Key>, objects: seq<Value>, bundle: Value) {
    && Grants(s, grantId)
    && StateHash(sha, s).Some?
    && DisclosesExactly(sha, reg, s, GrantRegion(s, grantId), keys, objects)
    && bundle == BundleValue(issuer.graphId, GrantRef(GrantAttributes(s, grantId), grantId),
                             SignedCheckpoint(sha, issuer, StateHash(sha, s).value), objects)
  }

  /** The receiver knows the issuer's key, and the issuer signs with it. */
  ghost predicate Trusts(trust: Trust, local: Objects, issuer: Issuer) {
    PeerKey(local, issuer.graphId).Some? && forall m :: trust.verify(PeerKey(local, issuer.graphId).value, m, issuer.sign(m))
  }

  /** The grant is for this receiver, or for everyone. */
  predicate Addressed(s: Objects, grantId: string, myId: string) {
    GetStr(GrantAttributes(s, grantId), "audience").GetOr("") in {myId, "public"}
  }

  lemma SignatureIsNotSigned(sha: Sha, issuer: Issuer, stateHash: string)
    ensures var c := SignedCheckpoint(sha, issuer, stateHash);
            && SignedPayload(sha, c, "checkpoint") == SignedPayload(sha, Map(Checkpoint(issuer.head, stateHash, issuer.timestamp, "principal:" + issuer.principal)), "checkpoint")
            && GetStr(c, "signature") == Some(issuer.sign(SignedPayload(sha, c, "checkpoint")))
            && GetStr(c, "state_hash") == Some(stateHash)
  {
    var c := Checkpoint(issuer.head, stateHash, issuer.timestamp, "principal:" + issuer.principal);
    assert "signature" !in c && GetStr(Map(c), "state_hash") == Some(stateHash);
    hide Checkpoint, HashValue;
    AddThenRemove(c, "signature", Str(issuer.sign(SignedPayload(sha, Map(c), "checkpoint"))));
  }

  lemma AddThenRemove(m: map<string, Value>, key: string, v: Value)
    requires key !in m
    ensures Remove(Map(m[key := v]), key) == Map(m) == Remove(Map(m), key)
  {
    assert m[key := v] - {key} == m == m - {key};
  }

  lemma BundleFields(graphId: string, grant: Value, checkpoint: Value, objects: seq<Value>)
    ensures var b := BundleValue(graphId, grant, checkpoint, objects);
            && GetStr(b, "graph_id") == Some(graphId) && Get(b, "grant") == Some(grant)
            && Get(b, "checkpoint") == Some(checkpoint) && GetSeq(b, "objects") == Some(objects)
  {
  }

  lemma CheckpointFields(sha: Sha, issuer: Issuer, stateHash: string)
    ensures var c := SignedCheckpoint(sha, issuer, stateHash);
            && GetStr(c, "kind") == Some("checkpoint") && GetStr(c, "revision") == Some(issuer.head) && GetStr(c, "timestamp") == Some(issuer.timestamp)
            && GetStr(c, "signer") == Some("principal:" + issuer.principal)
  {
    hide SignedPayload;
    assert "signature" !in {"kind", "revision", "timestamp", "signer"};
  }

  lemma EntryFields(s: Objects, k: Key)
    requires k in s
    ensures var e := EntryAt(s, k);
            && GetStr(e, "kind") == Some(k.0) && GetStr(e, "id") == Some(k.1) && GetStr(e, "rev") == Some(s[k].rev)
            && (Get(e, "deleted") == if s[k].deleted then Some(Bool(true)) else None)
  {
  }

  lemma GrantFields(attrs: Value, id: string)
    ensures GetStr(GrantRef(attrs, id), "audience") == GetStr(attrs, "audience") && Get(GrantRef(attrs, id), "scope") == Get(attrs, "scope")
    ensures attrs.Map? ==> GetStr(GrantRef(attrs, id), "id") == Some(id)
  {
  }

  /**
   * What a made bundle says: whose graph, which grant, a checkpoint of HEAD and of the state's hash that
   * the issuer has signed, and of each object the kind, id and revision it has, and its content.
   */
  lemma BundleReads(sha: Sha, reg: Registry, s: Objects, grantId: string, issuer: Issuer, keys: seq<Key>, objects: seq<Value>, bundle: Value)
    requires Made(sha, reg, s, grantId, issuer, keys, objects, bundle)
    ensures GetStr(bundle, "graph_id") == Some(issuer.graphId) && Get(bundle, "grant").Some? && Get(bundle, "checkpoint").Some?
    ensures var grant, attrs := Get(bundle, "grant").value, Get(s[("node", grantId)].content, "attributes").value;
            && GetStr(grant, "audience") == GetStr(attrs, "audience") && Get(grant, "scope") == Get(attrs, "scope") && GetStr(grant, "id") == Some(grantId)
    ensures var c := Get(bundle, "checkpoint").value;
            && GetStr(c, "revision") == Some(issuer.head) && GetStr(c, "state_hash") == StateHash(sha, s)
            && GetStr(c, "signer") == Some("principal:" + issuer.principal)
            && GetStr(c, "signature") == Some(issuer.sign(HashValue(sha, "checkpoint", Remove(c, "signature"))))
    ensures GetSeq(bundle, "objects") == Some(objects) && |objects| == |keys|
    ensures forall i :: 0 <= i < |keys| ==> ObjectReads(s, keys[i], objects[i])
  {
    hide StateHash, InPasses, IsDisclosed, Distinct, Discloses, SignedCheckpoint, BundleValue, HashValue, GrantRef, Remove, RegionOf;
    CheckpointFields(sha, issuer, StateHash(sha, s).value);
    SignatureIsNotSigned(sha, issuer, StateHash(sha, s).value);
    BundleFields(issuer.graphId, GrantRef(GrantAttributes(s, grantId), grantId), SignedCheckpoint(sha, issuer, StateHash(sha, s).value), objects);
    GrantFields(GrantAttributes(s, grantId), grantId);
    RegionMeansMap(GrantAttributes(s, grantId));
    forall i | 0 <= i < |keys| ensures ObjectReads(s, keys[i], objects[i]) {
      DisclosedReads(sha, s, keys[i], objects[i]);
    }
    hide ObjectReads;
  }

  lemma RegionMeansMap(attrs: Value)
    requires RegionOf(attrs).Some?
    ensures attrs.Map?
  {
  }

  /** One disclosed object: what its entry says, and its content. */
  ghost predicate ObjectReads(s: Objects, k: Key, v: Value) {
    k in s && Get(v, "entry").Some? && Get(v, "content") == Some(s[k].content) &&
    var e := Get(v, "entry").value;
    && GetStr(e, "kind") == Some(k.0) && GetStr(e, "id") == Some(k.1) && GetStr(e, "rev") == Some(s[k].rev)
    && (Get(e, "deleted") == if s[k].deleted then Some(Bool(true)) else None)
  }

  lemma DisclosedReads(sha: Sha, s: Objects, k: Key, v: Value)
    requires Discloses(sha, s, k, v)
    ensures ObjectReads(s, k, v)
  {
    hide PathFrom, StateLeaves, EntryAt, ObjectValue, InOrder, Entries, ProofOf, GetStr;
    var i: nat :| && i < |InOrder(s.Keys)| && InOrder(s.Keys)[i] == k
                  && PathFrom(sha, STATE.node, StateLeaves(sha, Entries(s)), i).Some?
                  && v == ObjectValue(EntryAt(s, k), s[k].content, PathFrom(sha, STATE.node, StateLeaves(sha, Entries(s)), i).value);
    ObjectFields(EntryAt(s, k), s[k].content, PathFrom(sha, STATE.node, StateLeaves(sha, Entries(s)), i).value);
    EntryFields(s, k);
  }

  lemma CheckpointAccepted(trust: Trust, local: Objects, issuer: Issuer, grant: Value, stateHash: string, objects: seq<Value>)
    requires Trusts(trust, local, issuer)
    ensures var b := BundleValue(issuer.graphId, grant, SignedCheckpoint(trust.sha, issuer, stateHash), objects);
            CheckedCheckpoint(trust, local, b) == Ok((PeerKey(local, issuer.graphId).value, issuer.graphId, stateHash))
  {
    SignatureIsNotSigned(trust.sha, issuer, stateHash);
    BundleFields(issuer.graphId, grant, SignedCheckpoint(trust.sha, issuer, stateHash), objects);
    hide SignedCheckpoint, BundleValue, SignedPayload, PeerKey;
  }

  lemma ObjectFields(entry: Value, content: Value, path: seq<Merkle.Step>)
    ensures var o := ObjectValue(entry, content, path);
            Get(o, "entry") == Some(entry) && Get(o, "content") == Some(content) && ProofOf(o) == path
  {
    PathReadsBack(path);
    var o := ObjectValue(entry, content, path);
    assert GetSeq(o, "proof") == Some(PathValue(path).items);
  }

  /** A disclosed object passes exactly when its content still has its revision. */
  lemma DisclosedPasses(sha: Sha, s: Objects, k: Key, v: Value)
    requires Discloses(sha, s, k, v) && StateHash(sha, s).Some?
    ensures CheckObject(sha, v, StateHash(sha, s).value).Ok? <==> RevisionHash(sha, s[k].content) == s[k].rev
    ensures Get(v, "content") == Some(s[k].content)
  {
    hide PathFrom, StateLeaves, StateHash, Verifies, Canonical, RevisionHash, EntryAt, ProofOf, ObjectValue, InOrder, Entries;
    var i: nat :| && i < |InOrder(s.Keys)| && InOrder(s.Keys)[i] == k
                  && PathFrom(sha, STATE.node, StateLeaves(sha, Entries(s)), i).Some?
                  && v == ObjectValue(EntryAt(s, k), s[k].content, PathFrom(sha, STATE.node, StateLeaves(sha, Entries(s)), i).value);
    EntriesShape(sha, s, i);
    ObjectFields(EntryAt(s, k), s[k].content, PathFrom(sha, STATE.node, StateLeaves(sha, Entries(s)), i).value);
    EntryRev(s, k);
  }

  /** The content a redacted object once had is in play, and so is what is left of it. */
  ghost predicate RedactionInPlay(sha: Sha, s: Objects, k: Key, images: set<Bytes>)
    requires k in s
  {
    && Fits(s[k].content) && ObjectImage(s[k].content) in images
    && exists c :: Shaped(k.0, c) && s[k].rev == RevisionHash(sha, c) && Fits(c) && ObjectImage(c) in images
  }

  lemma EnvelopeIsNotOriginal(kind: string, envelope: Value, c: Value)
    requires Shaped(kind, c)
    requires forall f :: Get(envelope, f).Some? ==> f in {"kind", "id", "provenance"}
    ensures Remove(envelope, "rev") != Remove(c, "rev")
  {
    forall f | f in {"type", "subject", "content_hash"} ensures Get(Remove(c, "rev"), f) == Get(c, f) && Get(Remove(envelope, "rev"), f) == None {
      RemoveKeepsFields(c, "rev", f);
      RemoveKeepsFields(envelope, "rev", f);
    }
    hide Remove;
  }

  lemma RedactedFails(sha: Sha, s: Objects, k: Key, images: set<Bytes>)
    requires k in s && ObjectOk(sha, k, s[k]) && s[k].redacted
    requires CollisionFree(sha, images) && RedactionInPlay(sha, s, k, images)
    ensures RevisionHash(sha, s[k].content) != s[k].rev
  {
    hide Remove, Fits, RevisionHash, ObjectImage;
    var c :| Shaped(k.0, c) && s[k].rev == RevisionHash(sha, c) && Fits(c) && ObjectImage(c) in images;
    EnvelopeIsNotOriginal(k.0, s[k].content, c);
    if RevisionHash(sha, s[k].content) == s[k].rev {
      RevisionBinds(sha, s[k].content, c, images);
    }
  }

  lemma AudienceReads(s: Objects, grantId: string, checkpoint: Value, graphId: string, objects: seq<Value>, myId: string)
    requires Grants(s, grantId)
    ensures var a := AudienceOf(BundleValue(graphId, GrantRef(GrantAttributes(s, grantId), grantId), checkpoint, objects));
            (a == myId || a == "public") <==> Addressed(s, grantId, myId)
  {
    var attrs := GrantAttributes(s, grantId);
    assert Get(GrantRef(attrs, grantId), "audience") == Get(attrs, "audience");
    BundleFields(graphId, GrantRef(attrs, grantId), checkpoint, objects);
    hide GrantRef, BundleValue, GrantAttributes;
  }

  ghost predicate RedactionsInPlay(sha: Sha, s: Objects, images: set<Bytes>) {
    forall k :: k in s && s[k].redacted ==> RedactionInPlay(sha, s, k, images)
  }

  /** No object the grant's region discloses has been redacted. */
  ghost predicate NothingRedacted(reg: Registry, s: Objects, grantId: string) {
    forall k :: k in s && IsDisclosed(reg, s, k, GrantRegion(s, grantId)) ==> !s[k].redacted
  }

  lemma VerifiesWhenKept(trust: Trust, reg: Registry, s: Objects, grantId: string, issuer: Issuer, keys: seq<Key>, objects: seq<Value>,
                        bundle: Value, local: Objects, myId: string, images: set<Bytes>)
    requires Inv(trust.sha, s) && CollisionFree(trust.sha, images) && RedactionsInPlay(trust.sha, s, images)
    requires Made(trust.sha, reg, s, grantId, issuer, keys, objects, bundle)
    requires Trusts(trust, local, issuer)
    ensures VerifyBundle(trust, local, myId, bundle).Ok? <==> Addressed(s, grantId, myId) && NothingRedacted(reg, s, grantId)
    ensures VerifyBundle(trust, local, myId, bundle).Ok? ==> VerifyBundle(trust, local, myId, bundle).value.count == |keys|
  {
    hide Inv, Discloses, IsDisclosed, SignedCheckpoint, StateHash, Addressed, AudienceOf, Trusts, CheckedCheckpoint, CheckObjects, BundleValue,
         GrantRef, GrantAttributes, GrantRegion, Grants, RedactionsInPlay, CollisionFree, PeerKey, Distinct;
    var stateHash := StateHash(trust.sha, s).value;
    var grant, checkpoint := GrantRef(GrantAttributes(s, grantId), grantId), SignedCheckpoint(trust.sha, issuer, stateHash);
    KnownKey(trust, local, issuer);
    CheckpointAccepted(trust, local, issuer, grant, stateHash, objects);
    AudienceReads(s, grantId, checkpoint, issuer.graphId, objects, myId);
    BundleFields(issuer.graphId, grant, checkpoint, objects);
    ObjectsPass(trust.sha, s, keys, objects, images);
  }

  /**
   * A bundle made from a state the issuer's log folds to verifies for a receiver that knows the issuer
   * exactly when the grant is addressed to it and no disclosed object has been redacted.
   */
  lemma VerifiesExactly(trust: Trust, env: Replay.Env, log: map<string, Value>, head: Option<string>, reg: Registry, s: Objects, grantId: string,
                        issuer: Issuer, keys: seq<Key>, objects: seq<Value>, bundle: Value, local: Objects, myId: string, images: set<Bytes>)
    requires env.sha == trust.sha && IsFolded(env, log, head, None, s)
    requires CollisionFree(trust.sha, images) && RedactionsInPlay(trust.sha, s, images)
    requires Made(trust.sha, reg, s, grantId, issuer, keys, objects, bundle)
    requires Trusts(trust, local, issuer)
    ensures VerifyBundle(trust, local, myId, bundle).Ok? <==> Addressed(s, grantId, myId) && NothingRedacted(reg, s, grantId)
    ensures VerifyBundle(trust, local, myId, bundle).Ok? ==> VerifyBundle(trust, local, myId, bundle).value.count == |keys|
  {
    hide VerifyBundle, Inv, RedactionsInPlay, CollisionFree, Made, Trusts, Addressed, NothingRedacted, Store.Folded;
    Store.FoldedKeepsInv(env, log, head, None);
    VerifiesWhenKept(trust, reg, s, grantId, issuer, keys, objects, bundle, local, myId, images);
  }

  lemma KnownKey(trust: Trust, local: Objects, issuer: Issuer)
    requires Trusts(trust, local, issuer)
    ensures PeerKey(local, issuer.graphId).Some?
  {
  }

  lemma ObjectsPass(sha: Sha, s: Objects, keys: seq<Key>, objects: seq<Value>, images: set<Bytes>)
    requires Inv(sha, s) && CollisionFree(sha, images) && StateHash(sha, s).Some?
    requires RedactionsInPlay(sha, s, images)
    requires |objects| == |keys| && forall k :: k in keys ==> k in s
    requires forall i :: 0 <= i < |keys| ==> Discloses(sha, s, keys[i], objects[i])
    ensures CheckObjects(sha, objects, StateHash(sha, s).value).Ok? <==> forall k :: k in keys ==> !s[k].redacted
  {
    hide StateHash, CheckObject, CheckObjects, Midway, EdgesJoinNodes, RedactionInPlay, CollisionFree, Discloses;
    EveryObjectChecked(sha, objects, StateHash(sha, s).value);
    forall i | 0 <= i < |keys| ensures CheckObject(sha, objects[i], StateHash(sha, s).value).Ok? <==> !s[keys[i]].redacted {
      DisclosedPassesUnlessRedacted(sha, s, keys[i], objects[i], images);
    }
  }

  lemma DisclosedPassesUnlessRedacted(sha: Sha, s: Objects, k: Key, v: Value, images: set<Bytes>)
    requires Midway(sha, s) && CollisionFree(sha, images) && StateHash(sha, s).Some?
    requires k in s && (s[k].redacted ==> RedactionInPlay(sha, s, k, images))
    requires Discloses(sha, s, k, v)
    ensures CheckObject(sha, v, StateHash(sha, s).value).Ok? <==> !s[k].redacted
  {
    hide StateHash, CheckObject, RedactionInPlay, Discloses, EdgeOk, FoldInvariant.Names, Shaped, Recorded;
    DisclosedPasses(sha, s, k, v);
    assert ObjectOk(sha, k, s[k]);
    if s[k].redacted {
      RedactedFails(sha, s, k, images);
    }
  }
}
