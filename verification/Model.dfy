/**
 * Object, changeset and state hashing (crates/allod-core/src/model.rs), and what those hashes bind.
 */
module Model {
  import opened Text
  import opened Values
  import opened Canon
  import opened Hashing
  import opened Merkle
  import opened Objects
  import Utf8

  /** Revision hash: the canonical encoding with `rev` omitted. */
  function RevisionHash(sha: Sha, payload: Value): string {
    HashValue(sha, "object", Remove(payload, "rev"))
  }

  const OPERATIONS := Domains("op-leaf", "op-node")
  const STATE := Domains("state-leaf", "state-node")

  lemma DomainsValid()
    ensures OPERATIONS.Valid() && STATE.Valid()
  {
  }

  function Payloads(values: seq<Value>): (r: seq<Bytes>)
    ensures |r| == |values|
  {
    seq(|values|, i requires 0 <= i < |values| => Canonical(values[i]))
  }

  lemma PayloadsInjective(xs: seq<Value>, ys: seq<Value>)
    requires (forall x :: x in xs ==> Fits(x)) && (forall y :: y in ys ==> Fits(y))
    requires Payloads(xs) == Payloads(ys)
    ensures xs == ys
  {
    forall i | 0 <= i < |xs| ensures xs[i] == ys[i] {
      assert Payloads(xs)[i] == Canonical(xs[i]) && Payloads(ys)[i] == Canonical(ys[i]);
      Injective(xs[i], ys[i]);
    }
  }

  // ---------------------------------------------------------------- changesets

  /** The map that is hashed: `hash` and `signature` dropped, operations and intent replaced by their hashes. */
  function Preimage(sha: Sha, cs: map<string, Value>, root: string): map<string, Value> {
    var m := (cs - {"hash", "signature"})["operations" := Str(root)];
    match (GetStr(Map(m), "intent"), GetStr(Map(m), "intent_hash"))
    case (Some(text), _) => m["intent" := Str(Sha256Hex(sha, "intent", Utf8.Encode(text)))]
    case (None, Some(ih)) => (m - {"intent_hash"})["intent" := Str(ih)]
    case (None, None) => m
  }

  /** Changeset hash and operations root from precomputed operation leaves. */
  function ChangesetHashFromLeaves(sha: Sha, cs: Value, leaves: seq<string>): Result<(string, string)> {
    match Root(sha, OPERATIONS.node, leaves)
    case None => Err("changeset has no operations")
    case Some(root) =>
      if !cs.Map? then Err("changeset must be a map")
      else Ok((HashValue(sha, "changeset", Map(Preimage(sha, cs.m, root))), root))
  }

  function OpLeaves(sha: Sha, ops: seq<Value>): seq<string> {
    LeafTexts(sha, OPERATIONS, Payloads(ops))
  }

  /** Changeset hash from the stored form. */
  function ChangesetHash(sha: Sha, cs: Value): Result<(string, string)> {
    match GetSeq(cs, "operations")
    case None => Err("changeset needs an operations list")
    case Some(ops) => ChangesetHashFromLeaves(sha, cs, OpLeaves(sha, ops))
  }

  // ---------------------------------------------------------------- state

  /** One object's entry in the state tree. */
  function StateEntry(kind: string, id: string, rev: string, deleted: bool): Value {
    var m := map["kind" := Str(kind), "id" := Str(id), "rev" := Str(rev)];
    Map(if deleted then m["deleted" := Bool(true)] else m)
  }

  function EntryAt(s: Objects, k: Key): Value
    requires k in s
  {
    StateEntry(k.0, k.1, s[k].rev, s[k].deleted)
  }

  function EntriesOf(s: Objects, keys: seq<Key>): (r: seq<Value>)
    requires forall k :: k in keys ==> k in s
    ensures |r| == |keys|
    ensures forall i :: 0 <= i < |keys| ==> r[i] == EntryAt(s, keys[i])
  {
    seq(|keys|, i requires 0 <= i < |keys| => EntryAt(s, keys[i]))
  }

  function Entries(s: Objects): seq<Value> {
    EntriesOf(s, InOrder(s.Keys))
  }

  function StateLeaves(sha: Sha, entries: seq<Value>): seq<string> {
    LeafTexts(sha, STATE, Payloads(entries))
  }

  /** State hash over entries in state order; an empty state has none. */
  function StateRoot(sha: Sha, entries: seq<Value>): Option<string> {
    Root(sha, STATE.node, StateLeaves(sha, entries))
  }

  function StateHash(sha: Sha, s: Objects): Option<string> {
    StateRoot(sha, Entries(s))
  }

  method StateRootLoop(sha: Sha, entries: seq<Value>) returns (root: Option<string>)
    ensures root == StateRoot(sha, entries)
  {
    var leaves: seq<string> := [];
    for i := 0 to |entries|
      invariant |leaves| == i
      invariant forall j :: 0 <= j < i ==> leaves[j] == Sha256Hex(sha, STATE.leaf, Canonical(entries[j]))
    {
      leaves := leaves + [Sha256Hex(sha, STATE.leaf, Canonical(entries[i]))];
    }
    assert leaves == StateLeaves(sha, entries);
    root := MerkleRoot(sha, STATE.node, leaves);
  }

  // ---------------------------------------------------------------- what the changeset hash binds

  /** What the hash covers of the intent: the digest standing in for it, and a left-over `intent_hash`. */
  function Committed(sha: Sha, cs: map<string, Value>): (Option<Value>, Option<Value>) {
    match (GetStr(Map(cs), "intent"), GetStr(Map(cs), "intent_hash"))
    case (Some(text), _) => (Some(Str(Sha256Hex(sha, "intent", Utf8.Encode(text)))), Get(Map(cs), "intent_hash"))
    case (None, Some(ih)) => (Some(Str(ih)), None)
    case (None, None) => (Get(Map(cs), "intent"), Get(Map(cs), "intent_hash"))
  }

  const UNCOVERED: set<string> := {"hash", "signature", "operations", "intent", "intent_hash"}

  lemma PreimageParts(sha: Sha, cs: map<string, Value>, root: string)
    ensures var p := Map(Preimage(sha, cs, root));
            && Get(p, "operations") == Some(Str(root))
            && (Get(p, "intent"), Get(p, "intent_hash")) == Committed(sha, cs)
            && Get(p, "hash") == None && Get(p, "signature") == None
    ensures forall k :: k !in UNCOVERED ==> Get(Map(Preimage(sha, cs, root)), k) == Get(Map(cs), k)
  {
  }

  /** The preimage map is a function of the root, the covered fields and the committed intent, and determines them. */
  lemma PreimageDetermines(sha: Sha, a: map<string, Value>, b: map<string, Value>, ra: string, rb: string)
    ensures Preimage(sha, a, ra) == Preimage(sha, b, rb) <==>
            && ra == rb
            && Committed(sha, a) == Committed(sha, b)
            && forall k :: k !in UNCOVERED ==> Get(Map(a), k) == Get(Map(b), k)
  {
    var p, q := Preimage(sha, a, ra), Preimage(sha, b, rb);
    PreimageParts(sha, a, ra);
    PreimageParts(sha, b, rb);
    if p == q {
      assert Get(Map(p), "operations") == Get(Map(q), "operations");
      forall k | k !in UNCOVERED ensures Get(Map(a), k) == Get(Map(b), k) {
        assert Get(Map(p), k) == Get(Map(q), k);
      }
    }
    if ra == rb && Committed(sha, a) == Committed(sha, b) && forall k :: k !in UNCOVERED ==> Get(Map(a), k) == Get(Map(b), k) {
      forall k ensures Get(Map(p), k) == Get(Map(q), k) {
        if k !in UNCOVERED {
          assert Get(Map(a), k) == Get(Map(b), k);
        }
      }
      SameFields(p, q);
    }
  }

  ghost predicate IsChangeset(cs: Value) {
    cs.Map? && Fits(cs) && GetSeq(cs, "operations").Some? && GetSeq(cs, "operations").value != []
  }

  function OpsOf(cs: Value): seq<Value> {
    GetSeq(cs, "operations").GetOr([])
  }

  function OpsRoot(sha: Sha, cs: Value): string {
    Root(sha, OPERATIONS.node, OpLeaves(sha, OpsOf(cs))).GetOr("")
  }

  /** Every preimage hashed to compute a changeset's hash. */
  ghost function ChangesetImages(sha: Sha, cs: Value): set<Bytes>
    requires IsChangeset(cs)
  {
    TreeImages(sha, OPERATIONS, TreeOf(Payloads(OpsOf(cs))))
    + {Tagged("changeset", Canonical(Map(Preimage(sha, cs.m, OpsRoot(sha, cs)))))}
    + match GetStr(cs, "intent")
      case Some(text) => {Tagged("intent", Utf8.Encode(text))}
      case None => {}
  }

  lemma SmallerMap<K, V>(m: map<K, V>, n: map<K, V>, keys: set<K>)
    requires m.Keys <= keys && |keys| <= |n.Keys|
    ensures |m| <= |n|
  {
    SubsetSize(m.Keys, keys);
    assert |m| == |m.Keys| && |n| == |n.Keys|;
  }

  lemma PreimageSize(sha: Sha, cs: map<string, Value>, root: string)
    requires "operations" in cs
    ensures |Preimage(sha, cs, root)| <= |cs|
  {
    var p := Preimage(sha, cs, root);
    if "intent" in p && "intent" !in cs {
      assert "intent_hash" in cs;
      SmallerMap(p, cs, cs.Keys - {"intent_hash"} + {"intent"});
    } else {
      SmallerMap(p, cs, cs.Keys);
    }
  }

  lemma PreimageFits(sha: Sha, cs: Value, root: string)
    requires cs.Map? && Fits(cs) && FitsText(root) && "operations" in cs.m
    ensures Fits(Map(Preimage(sha, cs.m, root)))
  {
    PreimageSize(sha, cs.m, root);
    forall k | k in Preimage(sha, cs.m, root)
      ensures (|k| <= 20 || FitsText(k)) && Fits(Preimage(sha, cs.m, root)[k])
    {
      PreimageFieldFits(sha, cs, root, k);
      assert k in cs.m ==> FitsText(k);
    }
    ShortKeysFit(Preimage(sha, cs.m, root));
  }

  lemma ShortKeysFit(m: map<string, Value>)
    requires |m| < U64_LIMIT
    requires forall k :: k in m ==> (|k| <= 20 || FitsText(k)) && Fits(m[k])
    ensures Fits(Map(m))
  {
    forall k: string | |k| <= 20 ensures FitsText(k) {
      Utf8.AtMostFour(k);
    }
  }

  lemma PreimageFieldIs(sha: Sha, cs: map<string, Value>, root: string, k: string)
    requires k in Preimage(sha, cs, root)
    ensures k in cs || |k| <= 20
    ensures var x := Preimage(sha, cs, root)[k];
            x == Str(root) || Committed(sha, cs).0 == Some(x) || Committed(sha, cs).1 == Some(x) || Get(Map(cs), k) == Some(x)
  {
  }

  lemma PreimageFieldFits(sha: Sha, cs: Value, root: string, k: string)
    requires cs.Map? && Fits(cs) && FitsText(root)
    requires k in Preimage(sha, cs.m, root)
    ensures k in cs.m || |k| <= 20
    ensures Fits(Preimage(sha, cs.m, root)[k])
  {
    hide Preimage, Committed;
    PreimageFieldIs(sha, cs.m, root, k);
    CommittedFits(sha, cs);
    FieldFits(cs, k);
    assert Fits(Str(root));
  }

  lemma CommittedFits(sha: Sha, cs: Value)
    requires cs.Map? && Fits(cs)
    ensures Committed(sha, cs.m).0.Some? ==> Fits(Committed(sha, cs.m).0.value)
    ensures Committed(sha, cs.m).1.Some? ==> Fits(Committed(sha, cs.m).1.value) && "intent_hash" in cs.m
  {
    FieldFits(cs, "intent");
    FieldFits(cs, "intent_hash");
    if GetStr(cs, "intent").Some? {
      var d := sha(Tagged("intent", Utf8.Encode(GetStr(cs, "intent").value)));
      RenderFits(d);
      assert Fits(Str(Render(d)));
    }
    hide Fits, Render, Tagged;
  }

  lemma OpsRootRendered(sha: Sha, cs: Value)
    requires IsChangeset(cs)
    ensures ChangesetHash(sha, cs).Ok?
    ensures ChangesetHash(sha, cs).value.1 == OpsRoot(sha, cs) == Render(TreeDigest(sha, OPERATIONS, TreeOf(Payloads(OpsOf(cs)))))
    ensures ChangesetHash(sha, cs).value.0 == HashValue(sha, "changeset", Map(Preimage(sha, cs.m, OpsRoot(sha, cs))))
    ensures FitsText(OpsRoot(sha, cs))
  {
    RootOfLeaves(sha, OPERATIONS, Payloads(OpsOf(cs)));
    RenderFits(TreeDigest(sha, OPERATIONS, TreeOf(Payloads(OpsOf(cs)))));
  }

  /** Equal roots over two non-empty lists of values mean equal lists. */
  lemma RootBindsValues(sha: Sha, ds: Domains, xs: seq<Value>, ys: seq<Value>, images: set<Bytes>)
    requires ds.Valid() && CollisionFree(sha, images)
    requires xs != [] && ys != []
    requires (forall x :: x in xs ==> Fits(x)) && (forall y :: y in ys ==> Fits(y))
    requires TreeImages(sha, ds, TreeOf(Payloads(xs))) <= images && TreeImages(sha, ds, TreeOf(Payloads(ys))) <= images
    requires Root(sha, ds.node, LeafTexts(sha, ds, Payloads(xs))) == Root(sha, ds.node, LeafTexts(sha, ds, Payloads(ys)))
    ensures xs == ys
  {
    RootBindsLeaves(sha, ds, Payloads(xs), Payloads(ys), images);
    PayloadsInjective(xs, ys);
  }

  lemma OpsFit(cs: Value)
    requires IsChangeset(cs)
    ensures forall op :: op in OpsOf(cs) ==> Fits(op)
    ensures OpsOf(cs) != []
  {
    assert Fits(cs.m["operations"]);
  }

  lemma ImagesOfOps(sha: Sha, cs: Value)
    requires IsChangeset(cs)
    ensures TreeImages(sha, OPERATIONS, TreeOf(Payloads(OpsOf(cs)))) <= ChangesetImages(sha, cs)
    ensures Tagged("changeset", Canonical(Map(Preimage(sha, cs.m, OpsRoot(sha, cs))))) in ChangesetImages(sha, cs)
    ensures GetStr(cs, "intent").Some? ==> Tagged("intent", Utf8.Encode(GetStr(cs, "intent").value)) in ChangesetImages(sha, cs)
  {
  }

  lemma IntentBinds(sha: Sha, a: Value, b: Value, images: set<Bytes>)
    requires InPlay(sha, a, images) && InPlay(sha, b, images)
    requires Committed(sha, a.m) == Committed(sha, b.m)
    requires GetStr(a, "intent").Some? && GetStr(b, "intent").Some?
    ensures GetStr(a, "intent") == GetStr(b, "intent")
  {
    var s, t := GetStr(a, "intent").value, GetStr(b, "intent").value;
    ImagesOfOps(sha, a);
    ImagesOfOps(sha, b);
    TextBinds(sha, s, t, images);
  }

  lemma TextBinds(sha: Sha, s: string, t: string, images: set<Bytes>)
    requires CollisionFree(sha, images)
    requires Tagged("intent", Utf8.Encode(s)) in images && Tagged("intent", Utf8.Encode(t)) in images
    ensures Sha256Hex(sha, "intent", Utf8.Encode(s)) == Sha256Hex(sha, "intent", Utf8.Encode(t)) ==> s == t
  {
    if Sha256Hex(sha, "intent", Utf8.Encode(s)) == Sha256Hex(sha, "intent", Utf8.Encode(t)) {
      HashBinds(sha, images, "intent", Utf8.Encode(s), "intent", Utf8.Encode(t));
      Utf8.Injective(s, t);
    }
  }

  /**
   * Equal changeset hashes mean the same operation list, the same header outside the uncovered
   * fields, and the same committed intent; and nothing else is needed for equal hashes.
   */
  lemma ChangesetHashBinds(sha: Sha, a: Value, b: Value, images: set<Bytes>)
    requires InPlay(sha, a, images) && InPlay(sha, b, images)
    ensures ChangesetHash(sha, a).Ok? && ChangesetHash(sha, b).Ok?
    ensures ChangesetHash(sha, a).value.0 == ChangesetHash(sha, b).value.0 <==> SameChangeset(sha, a, b)
    ensures ChangesetHash(sha, a).value.0 == ChangesetHash(sha, b).value.0 ==>
              GetStr(a, "intent").Some? && GetStr(b, "intent").Some? ==> GetStr(a, "intent") == GetStr(b, "intent")
  {
    OpsRootRendered(sha, a);
    OpsRootRendered(sha, b);
    if SameChangeset(sha, a, b) {
      PreimageDetermines(sha, a.m, b.m, OpsRoot(sha, a), OpsRoot(sha, b));
    }
    if ChangesetHash(sha, a).value.0 == ChangesetHash(sha, b).value.0 {
      EqualHashesBind(sha, a, b, images);
      if GetStr(a, "intent").Some? && GetStr(b, "intent").Some? {
        IntentBinds(sha, a, b, images);
      }
    }
  }

  /** The operations, the committed intent, and every field outside the uncovered ones. */
  ghost predicate SameChangeset(sha: Sha, a: Value, b: Value)
    requires a.Map? && b.Map?
  {
    && OpsOf(a) == OpsOf(b)
    && Committed(sha, a.m) == Committed(sha, b.m)
    && forall k :: k !in UNCOVERED ==> Get(a, k) == Get(b, k)
  }

  /** `images` covers the changeset's preimages, and none of them collide. */
  ghost predicate InPlay(sha: Sha, cs: Value, images: set<Bytes>) {
    IsChangeset(cs) && CollisionFree(sha, images) && ChangesetImages(sha, cs) <= images
  }

  lemma PreimageInPlay(sha: Sha, cs: Value, images: set<Bytes>)
    requires InPlay(sha, cs, images)
    ensures Tagged("changeset", Canonical(Map(Preimage(sha, cs.m, OpsRoot(sha, cs))))) in images
    ensures Fits(Map(Preimage(sha, cs.m, OpsRoot(sha, cs))))
  {
    ImagesOfOps(sha, cs);
    OpsRootRendered(sha, cs);
    PreimageFits(sha, cs, OpsRoot(sha, cs));
  }

  lemma PreimagesEqual(sha: Sha, a: Value, b: Value, images: set<Bytes>)
    requires InPlay(sha, a, images) && InPlay(sha, b, images)
    requires HashValue(sha, "changeset", Map(Preimage(sha, a.m, OpsRoot(sha, a))))
          == HashValue(sha, "changeset", Map(Preimage(sha, b.m, OpsRoot(sha, b))))
    ensures Preimage(sha, a.m, OpsRoot(sha, a)) == Preimage(sha, b.m, OpsRoot(sha, b))
  {
    hide Preimage, OpsRoot, ChangesetImages, Fits, Canonical, Tagged;
    PreimageInPlay(sha, a, images);
    PreimageInPlay(sha, b, images);
    ValueHashBinds(sha, images, "changeset", Map(Preimage(sha, a.m, OpsRoot(sha, a))), Map(Preimage(sha, b.m, OpsRoot(sha, b))));
  }

  lemma OpsInPlay(sha: Sha, cs: Value, images: set<Bytes>)
    requires InPlay(sha, cs, images)
    ensures TreeImages(sha, OPERATIONS, TreeOf(Payloads(OpsOf(cs)))) <= images
    ensures forall op :: op in OpsOf(cs) ==> Fits(op)
    ensures OpsOf(cs) != []
  {
    ImagesOfOps(sha, cs);
    OpsFit(cs);
  }

  lemma OpsEqual(sha: Sha, a: Value, b: Value, images: set<Bytes>)
    requires InPlay(sha, a, images) && InPlay(sha, b, images)
    requires OpsRoot(sha, a) == OpsRoot(sha, b)
    ensures OpsOf(a) == OpsOf(b)
  {
    OpsRootRendered(sha, a);
    OpsRootRendered(sha, b);
    OpsInPlay(sha, a, images);
    OpsInPlay(sha, b, images);
    DomainsValid();
    hide OpsRoot, OpsOf, ChangesetImages, Fits;
    RootBindsValues(sha, OPERATIONS, OpsOf(a), OpsOf(b), images);
  }

  lemma EqualHashesBind(sha: Sha, a: Value, b: Value, images: set<Bytes>)
    requires InPlay(sha, a, images) && InPlay(sha, b, images)
    requires HashValue(sha, "changeset", Map(Preimage(sha, a.m, OpsRoot(sha, a))))
          == HashValue(sha, "changeset", Map(Preimage(sha, b.m, OpsRoot(sha, b))))
    ensures SameChangeset(sha, a, b)
  {
    PreimagesEqual(sha, a, b, images);
    PreimageDetermines(sha, a.m, b.m, OpsRoot(sha, a), OpsRoot(sha, b));
    OpsEqual(sha, a, b, images);
  }

  /** Redaction of the intent text: its hash is stored in its place. */
  function RedactIntent(sha: Sha, cs: Value): Value
    requires cs.Map? && GetStr(cs, "intent").Some?
  {
    Map((cs.m - {"intent"})["intent_hash" := Str(Sha256Hex(sha, "intent", Utf8.Encode(cs.m["intent"].s)))])
  }

  lemma RedactedParts(sha: Sha, cs: Value)
    requires cs.Map? && GetStr(cs, "intent").Some?
    ensures var r := RedactIntent(sha, cs);
            && (forall k :: k !in UNCOVERED ==> Get(r, k) == Get(cs, k))
            && OpsOf(r) == OpsOf(cs)
            && Committed(sha, r.m) == (Committed(sha, cs.m).0, None)
            && Committed(sha, cs.m).1 == Get(cs, "intent_hash")
  {
  }

  /** Replacing the intent by its hash keeps the changeset hash when no `intent_hash` was there before. */
  lemma IntentRedactionStable(sha: Sha, cs: Value)
    requires IsChangeset(cs) && GetStr(cs, "intent").Some?
    requires "intent_hash" !in cs.m
    ensures ChangesetHash(sha, RedactIntent(sha, cs)) == ChangesetHash(sha, cs)
    ensures Get(RedactIntent(sha, cs), "intent") == None
    ensures Get(RedactIntent(sha, cs), "intent_hash") == Some(Str(Sha256Hex(sha, "intent", Utf8.Encode(GetStr(cs, "intent").value))))
  {
    var r := RedactIntent(sha, cs);
    RedactedParts(sha, cs);
    PreimageDetermines(sha, r.m, cs.m, OpsRoot(sha, r), OpsRoot(sha, cs));
  }

  /** With an `intent_hash` already there the redacted changeset hashes differently: that field is lost. */
  lemma IntentRedactionUnstable(sha: Sha, cs: Value, images: set<Bytes>)
    requires cs.Map? && GetStr(cs, "intent").Some? && "intent_hash" in cs.m
    requires InPlay(sha, cs, images) && InPlay(sha, RedactIntent(sha, cs), images)
    ensures ChangesetHash(sha, RedactIntent(sha, cs)) != ChangesetHash(sha, cs)
  {
    RedactedParts(sha, cs);
    ChangesetHashBinds(sha, RedactIntent(sha, cs), cs, images);
  }

  /** The hash is unchanged when only the operation leaves are kept, whatever stands in the operations field. */
  lemma ElisionStable(sha: Sha, cs: Value, elided: Value)
    requires cs.Map? && elided.Map? && GetSeq(cs, "operations").Some?
    requires elided.m - {"operations"} == cs.m - {"operations"}
    ensures ChangesetHashFromLeaves(sha, elided, OpLeaves(sha, OpsOf(cs))) == ChangesetHash(sha, cs)
  {
    var root := OpsRoot(sha, cs);
    forall k | k !in UNCOVERED ensures Get(elided, k) == Get(cs, k) {
      assert k in elided.m <==> k in elided.m - {"operations"};
      assert k in cs.m <==> k in cs.m - {"operations"};
      assert k in elided.m ==> (elided.m - {"operations"})[k] == elided.m[k];
      assert k in cs.m ==> (cs.m - {"operations"})[k] == cs.m[k];
    }
    forall k | k in {"intent", "intent_hash"} ensures Get(elided, k) == Get(cs, k) {
      assert k in elided.m <==> k in elided.m - {"operations"};
      assert k in cs.m <==> k in cs.m - {"operations"};
      assert k in elided.m ==> (elided.m - {"operations"})[k] == elided.m[k];
      assert k in cs.m ==> (cs.m - {"operations"})[k] == cs.m[k];
    }
    assert Get(elided, "intent") == Get(cs, "intent") && Get(elided, "intent_hash") == Get(cs, "intent_hash");
    PreimageDetermines(sha, elided.m, cs.m, root, root);
  }

  // ---------------------------------------------------------------- what the state hash binds

  /** The preimages hashed to compute a state hash. */
  ghost function StateImages(sha: Sha, s: Objects): set<Bytes>
    requires s != map[]
  {
    TreeImages(sha, STATE, TreeOf(Payloads(Entries(s))))
  }

  ghost predicate FitsKeys(s: Objects) {
    forall k :: k in s ==> FitsText(k.0) && FitsText(k.1) && FitsText(s[k].rev)
  }

  lemma EntryFits(s: Objects, k: Key)
    requires FitsKeys(s) && k in s
    ensures Fits(EntryAt(s, k))
  {
    EntryShape(k.0, k.1, s[k].rev, s[k].deleted);
    ShortKeysFit(EntryAt(s, k).m);
  }

  lemma EntryShape(kind: string, id: string, rev: string, deleted: bool)
    requires FitsText(kind) && FitsText(id) && FitsText(rev)
    ensures var e := StateEntry(kind, id, rev, deleted);
            && |e.m| < U64_LIMIT
            && forall k :: k in e.m ==> |k| <= 20 && Fits(e.m[k])
  {
    EntryKeys(kind, id, rev, deleted);
    var e := StateEntry(kind, id, rev, deleted);
    assert Fits(Str(kind)) && Fits(Str(id)) && Fits(Str(rev)) && Fits(Bool(true));
  }

  lemma EntryKeys(kind: string, id: string, rev: string, deleted: bool)
    ensures var e := StateEntry(kind, id, rev, deleted);
            && |e.m| <= 4
            && forall k :: k in e.m ==> |k| <= 20 && e.m[k] in {Str(kind), Str(id), Str(rev), Bool(true)}
  {
    var e := StateEntry(kind, id, rev, deleted);
    SubsetSize(e.m.Keys, {"kind", "id", "rev", "deleted"});
    assert |e.m| == |e.m.Keys|;
  }

  lemma EntriesNonEmpty(s: Objects)
    requires s != map[]
    ensures Entries(s) != []
  {
    assert s.Keys != {};
  }

  lemma EntryInjective(kind1: string, id1: string, rev1: string, del1: bool, kind2: string, id2: string, rev2: string, del2: bool)
    requires StateEntry(kind1, id1, rev1, del1) == StateEntry(kind2, id2, rev2, del2)
    ensures kind1 == kind2 && id1 == id2 && rev1 == rev2 && del1 == del2
  {
    var e, f := StateEntry(kind1, id1, rev1, del1), StateEntry(kind2, id2, rev2, del2);
    assert GetStr(e, "kind") == GetStr(f, "kind") && GetStr(e, "id") == GetStr(f, "id") && GetStr(e, "rev") == GetStr(f, "rev");
    assert Get(e, "deleted") == Get(f, "deleted");
  }

  ghost predicate StateInPlay(sha: Sha, s: Objects, images: set<Bytes>) {
    s != map[] && FitsKeys(s) && CollisionFree(sha, images) && StateImages(sha, s) <= images
  }

  lemma StateFacts(sha: Sha, s: Objects, images: set<Bytes>)
    requires StateInPlay(sha, s, images)
    ensures Entries(s) != []
    ensures forall e :: e in Entries(s) ==> Fits(e)
    ensures TreeImages(sha, STATE, TreeOf(Payloads(Entries(s)))) <= images
  {
    EntriesNonEmpty(s);
    EntriesFit(s);
  }

  /** Equal state hashes mean the same keys, revisions and tombstones. */
  lemma StateHashBinds(sha: Sha, s: Objects, t: Objects, images: set<Bytes>)
    requires StateInPlay(sha, s, images) && StateInPlay(sha, t, images)
    requires StateHash(sha, s) == StateHash(sha, t)
    ensures SameRevisions(s, t) && SameRevisions(t, s)
  {
    EntriesEqual(sha, s, t, images);
    EntriesDetermine(s, t);
    EntriesDetermine(t, s);
  }

  lemma EntriesEqual(sha: Sha, s: Objects, t: Objects, images: set<Bytes>)
    requires StateInPlay(sha, s, images) && StateInPlay(sha, t, images)
    requires StateHash(sha, s) == StateHash(sha, t)
    ensures Entries(s) == Entries(t)
  {
    StateFacts(sha, s, images);
    StateFacts(sha, t, images);
    DomainsValid();
    hide Entries, Fits, StateImages;
    RootBindsValues(sha, STATE, Entries(s), Entries(t), images);
  }

  lemma EntriesFit(s: Objects)
    requires FitsKeys(s)
    ensures forall e :: e in Entries(s) ==> Fits(e)
  {
    forall i | 0 <= i < |Entries(s)| ensures Fits(Entries(s)[i]) {
      assert InOrder(s.Keys)[i] in s;
      EntryFits(s, InOrder(s.Keys)[i]);
    }
  }

  /** Every object of `s` is in `t` with the same revision and the same tombstone. */
  ghost predicate SameRevisions(s: Objects, t: Objects) {
    forall k :: k in s ==> k in t && s[k].rev == t[k].rev && s[k].deleted == t[k].deleted
  }

  lemma EntriesDetermine(s: Objects, t: Objects)
    requires Entries(s) == Entries(t)
    ensures SameRevisions(s, t)
  {
    forall k | k in s ensures k in t && s[k].rev == t[k].rev && s[k].deleted == t[k].deleted {
      var i :| 0 <= i < |InOrder(s.Keys)| && InOrder(s.Keys)[i] == k;
      var j := InOrder(t.Keys)[i];
      assert Entries(s)[i] == EntryAt(s, k) && Entries(t)[i] == EntryAt(t, j);
      EntryInjective(k.0, k.1, s[k].rev, s[k].deleted, j.0, j.1, t[j].rev, t[j].deleted);
    }
  }
}
