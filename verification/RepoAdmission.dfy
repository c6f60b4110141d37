/**
 * An import from end to end (crates/allod-graph/src/repo.rs:332-610): the state is folded, indexed and
 * compared with the commit, the operations become a changeset on HEAD, and admission files it. Replaying
 * the log then gives the state the importer aimed at.
 */
module RepoAdmission {
  import opened Text
  import opened Values
  import opened Hashing
  import opened Model
  import opened Objects
  import opened Registries
  import opened Meta
  import opened Fold
  import FoldInvariant
  import opened Replay
  import opened Store
  import opened Admission
  import opened RepoImport
  import opened RepoLayout
  import opened RepoTarget
  import opened RepoApply
  import opened RepoAccept
  import opened RepoExact

  type CodeMint = RepoImport.Mint

  // ---------------------------------------------------------------- an import is guarded

  lemma CodeIsNotMeta(content: Value)
    requires NodeCode(TypeOf(content), content) != Other
    ensures !IsMetaType(GetStr(content, "type").GetOr(""))
  {
    hide Bare, RepoImport.Attr, TypeKind, GetStr;
    assert "code/Repository"[0] == "code/SourceFile"[0] == "code/Function"[0] == "code/Type"[0] == 'c';
    assert forall t :: t in META_TYPES ==> |t| > 0 && t[0] == 'm';
  }

  lemma LaidIsNotSchema(s: Objects, k: Key)
    requires Live(s, k) != Other
    ensures !IsSchemaNode(s, k)
  {
    hide NodeCode, EdgeCode, Bare, IsMetaType;
    if k.0 == "node" {
      CodeIsNotMeta(s[k].content);
    }
  }

  lemma AttributesClaimNothing(c: Commit, path: string, key: ItemKey)
    ensures path in c.blobs ==> GetStr(FileAttributes(c, path), "package") == None && GetStr(FileAttributes(c, path), "taxonomy") == None
    ensures key in c.items ==>
              GetStr(ItemAttributes(key, c.items[key]), "package") == None && GetStr(ItemAttributes(key, c.items[key]), "taxonomy") == None
  {
    hide BlobRef;
    assert "package" !in {"path", "blob", "language", "name", "signature", "span", "kind"};
    assert "taxonomy" !in {"path", "blob", "language", "name", "signature", "span", "kind"};
  }

  /** No code object claims the reserved package. */
  lemma ContentClaimsNothing(j: Job, slot: Slot)
    requires Wanted(j, slot)
    ensures !ClaimsReserved(Map(Content(j, slot)))
  {
    AttributesClaimNothing(j.c, if slot.FileSlot? then slot.path else "", if slot.ItemSlot? then slot.key else ("", "", ""));
    hide Refs, IdOf, FileAttributes, ItemAttributes, NodeRef, BlobRef;
  }

  lemma PriorClaimsNothing(content: map<string, Value>, prior: string)
    requires !ClaimsReserved(Map(content))
    ensures !ClaimsReserved(Map(content["prior" := Str(prior)]))
  {
    assert Get(Map(content["prior" := Str(prior)]), "attributes") == Get(Map(content), "attributes");
  }

  lemma CreateIsPlain(s: Objects, payload: Value)
    requires !ClaimsReserved(payload)
    ensures !OpEscapes(s, Map(map["create" := payload]))
  {
    hide ParseOp, KeyOf, ClaimsReserved, IsSchemaNode;
    assert "create"[0] != "update"[0] && "create"[0] != "redact-document"[0];
    ParsesSingle("create", payload);
  }

  lemma UpdateIsPlain(s: Objects, payload: Value, k: Key)
    requires !ClaimsReserved(payload) && KeyOf(payload) == Ok(k) && !IsSchemaNode(s, k)
    ensures !OpEscapes(s, Map(map["update" := payload]))
  {
    hide ParseOp, KeyOf, ClaimsReserved, IsSchemaNode;
    assert "update"[0] != "redact-document"[0];
    ParsesSingle("update", payload);
  }

  lemma DeleteIsPlain(s: Objects, payload: Value)
    ensures !OpEscapes(s, Map(map["delete" := payload]))
  {
    hide ParseOp, KeyOf, ClaimsReserved, IsSchemaNode;
    assert "delete"[0] != "update"[0] && "delete"[0] != "create"[0] && "delete"[0] != "redact-document"[0];
    ParsesSingle("delete", payload);
  }

  lemma SlotOpIsPlain(j: Job, slot: Slot, op: Value)
    requires Laid(j.s, j.l) && op in SlotOps(j, slot)
    ensures !OpEscapes(j.s, op)
  {
    hide Laid, Content, Wanted, Stale, RevAt, IdOf, OpEscapes, ClaimsReserved, KeyOf, IsSchemaNode, KeyOfSlot, ChangeFor;
    ChangeCases(j, slot);
    match ChangeFor(j, slot).value {
      case Make(content) =>
        ContentClaimsNothing(j, slot);
        CreateIsPlain(j.s, Map(content));
      case Remake(content, prior) =>
        ContentClaimsNothing(j, slot);
        PriorClaimsNothing(content, prior);
        RemadeKey(j, slot, prior);
        UpdateIsPlain(j.s, Map(content["prior" := Str(prior)]), KeyOfSlot(j, slot));
      case Drop(prior) =>
        var k := KeyOfSlot(j, slot);
        DeleteIsPlain(j.s, Map(map["kind" := Str(k.0), "id" := Str(k.1), "prior" := Str(prior)]));
    }
  }

  lemma KeyWithPrior(content: map<string, Value>, prior: string, k: Key)
    requires KeyOf(Map(content)) == Ok(k)
    ensures KeyOf(Map(content["prior" := Str(prior)])) == Ok(k)
  {
    assert Get(Map(content["prior" := Str(prior)]), "kind") == Get(Map(content), "kind");
    assert Get(Map(content["prior" := Str(prior)]), "id") == Get(Map(content), "id");
  }

  lemma RemadeKey(j: Job, slot: Slot, prior: string)
    requires Laid(j.s, j.l) && Wanted(j, slot) && slot in j.l.ids
    ensures KeyOf(Map(Content(j, slot)["prior" := Str(prior)])) == Ok(KeyOfSlot(j, slot))
    ensures !IsSchemaNode(j.s, KeyOfSlot(j, slot))
  {
    hide Laid, Content, Wanted, IsSchemaNode, KeyOf, Live, KeyOfSlot;
    ContentKey(j, slot);
    KeyWithPrior(Content(j, slot), prior, KeyOfSlot(j, slot));
    LaidIsCode(j, slot);
    LaidIsNotSchema(j.s, KeyOfSlot(j, slot));
  }

  lemma {:induction false} SlotsOpsArePlain(j: Job, slots: seq<Slot>)
    requires Laid(j.s, j.l)
    ensures forall op :: op in SlotsOps(j, slots) ==> !OpEscapes(j.s, op)
  {
    hide Laid, SlotOps, OpEscapes;
    if slots == [] {
    } else {
      SlotsOpsArePlain(j, slots[..|slots| - 1]);
      forall op | op in SlotOps(j, slots[|slots| - 1]) ensures !OpEscapes(j.s, op) {
        SlotOpIsPlain(j, slots[|slots| - 1], op);
      }
    }
  }

  /** What an import emits. */
  function ImportOps(j: Job, o: Orders): seq<Value> {
    PlanOps(j.c, IndexState(j.s), j.mint, Plan(o))
  }

  /** An import never escapes the cache's invalidation test. */
  lemma ImportIsGuarded(j: Job, o: Orders, cs: Value)
    requires Ready(j) && Walks(o, j.c, IndexState(j.s), j.mint) && OpsOf(cs) == ImportOps(j, o)
    ensures Guarded(j.s, cs)
  {
    ReadyIsLaid(j);
    IndexAgrees(j.s, j.l);
    hide Ready, Laid, Walks, Agrees, IndexState, Plan, PlanSlots, PlanOps, Exhaustive, InSequence, SlotsOps, OpEscapes, TouchesMeta;
    PlanWorks(j, IndexState(j.s), o);
    SlotsOpsArePlain(j, PlanSlots(j, Plan(o)));
  }

  // ---------------------------------------------------------------- replaying an import

  /** A changeset that carries the operations of an import, under a fresh hash and on HEAD. */
  ghost predicate CarriesImport(set0: Setting, log: map<string, Value>, head: Option<string>, tip: Tip, j: Job, o: Orders, cs: Value, hash: string) {
    && j.s == tip.state && Ready(j) && AcceptsCode(tip.reg, j.c) && Walks(o, j.c, IndexState(j.s), j.mint)
    && CheckHeader(set0.env.sha, cs) == Ok(ImportOps(j, o))
    && Short(hash) !in log && SameTip(FirstParent(cs), head)
  }

  lemma TipHoldsTogether(set0: Setting, log: map<string, Value>, head: Option<string>, tip: Tip)
    requires IsTip(set0, log, head, tip)
    ensures NoDangling(tip.state)
  {
    hide Folded, FromState, PolicyOf;
    FoldedKeepsInv(set0.env, log, head, None);
    hide FoldInvariant.Midway;
    InvHoldsTogether(set0.env.sha, tip.state);
  }

  lemma InvHoldsTogether(sha: Sha, s: Objects)
    requires FoldInvariant.Inv(sha, s)
    ensures NoDangling(s)
  {
  }

  /** At a tip, the fold accepts an import exactly when no other live edge hangs on what it removes and the rules hold of it. */
  lemma ImportAtTip(set0: Setting, log: map<string, Value>, head: Option<string>, tip: Tip, j: Job, o: Orders, cs: Value, hash: string)
    requires IsTip(set0, log, head, tip) && CarriesImport(set0, log, head, tip, j, o, cs, hash)
    ensures ImportWorking(set0.env.sha, tip.reg, j, o).Ok?
    ensures Apply(set0.env.sha, tip.reg, tip.state, cs).Ok? <==> Unattached(j) && RulesHold(tip.reg, ImportWorking(set0.env.sha, tip.reg, j, o).value)
    ensures Laid(j.s, j.l)
    ensures Apply(set0.env.sha, tip.reg, tip.state, cs).Ok? ==> Apply(set0.env.sha, tip.reg, tip.state, cs) == Ok(Imported(set0.env.sha, j, o))
    ensures Laid(Imported(set0.env.sha, j, o), Target(j)) && Exact(j.c, IndexState(Imported(set0.env.sha, j, o)))
  {
    hide IsTip, Ready, Laid, AcceptsCode, Walks, IndexState, PlanOps, Plan, CheckHeader, SameTip, Unattached, RulesHold, NoDangling, ApplyOps, Apply, After, Target, Exact,
         PlanSlots;
    TipHoldsTogether(set0, log, head, tip);
    ReadyIsLaid(j);
    ImportIsExact(set0.env.sha, tip.reg, j, o, cs);
  }

  lemma TipFolds(set0: Setting, log: map<string, Value>, head: Option<string>, tip: Tip)
    requires IsTip(set0, log, head, tip) && GuardedRun(set0.env, map[], true, ChainOf(log, head).value)
    ensures FoldUpTo(set0.env, map[], true, ChainOf(log, head).value, None) == Ok(tip.state)
  {
    hide GuardedRun, FromState, PolicyOf, CachedUpTo, FoldUpTo;
    CachedIsUncached(set0.env, map[], true, None, ChainOf(log, head).value, None);
  }

  /**
   * Once an import is admitted on HEAD, the log folds to the state the importer aimed at, whose index is
   * exactly the commit. The chain stays guarded, so the same holds of the next admission.
   */
  lemma ImportReplays(set0: Setting, log: map<string, Value>, head: Option<string>, tip: Tip, j: Job, o: Orders, cs: Value, hash: string,
                      log': map<string, Value>, head': Option<string>, after: Objects)
    requires IsTip(set0, log, head, tip) && CarriesImport(set0, log, head, tip, j, o, cs, hash)
    requires GuardedRun(set0.env, map[], true, ChainOf(log, head).value)
    requires Accepts(set0, tip, cs, hash, log, log', head', after)
    ensures Ends(log', head') && ChainOf(log', head') == Ok(ChainOf(log, head).value + [cs])
    ensures GuardedRun(set0.env, map[], true, ChainOf(log', head').value)
    ensures Laid(j.s, j.l) && Folded(set0.env, log', head', None) == Ok(Imported(set0.env.sha, j, o))
    ensures Exact(j.c, IndexState(Imported(set0.env.sha, j, o))) && Laid(Imported(set0.env.sha, j, o), Target(j))
  {
    HeaderOps(set0.env, cs);
    hide IsTip, Ready, Laid, AcceptsCode, Walks, IndexState, ImportOps, CheckHeader, SameTip, Unattached, RulesHold, ApplyOps, Apply, After, Target, Exact,
         PlanSlots, GuardedRun, Ends, ChainOf, Folded, Guarded, FoldUpTo, Imported, ImportWorking;
    ImportAtTip(set0, log, head, tip, j, o, cs, hash);
    AdmittedReplays(set0, log, head, tip, cs, hash, log', head', after);
    ImportIsGuarded(j, o, cs);
    TipFolds(set0, log, head, tip);
    GuardedExtends(set0.env, map[], true, ChainOf(log, head).value, cs, tip.state);
  }

  /** Importing the same contents into what the log then folds to emits nothing, whichever commit they are from. */
  lemma ReimportIsIdle(set0: Setting, log: map<string, Value>, head: Option<string>, tip: Tip, j: Job, o: Orders, cs: Value, hash: string,
                       log': map<string, Value>, head': Option<string>, after: Objects, provenance: Value, mint: CodeMint, again: Orders)
    requires IsTip(set0, log, head, tip) && CarriesImport(set0, log, head, tip, j, o, cs, hash)
    requires GuardedRun(set0.env, map[], true, ChainOf(log, head).value)
    requires Accepts(set0, tip, cs, hash, log, log', head', after)
    requires Ends(log', head') && Folded(set0.env, log', head', None).Ok?
    requires var s := Folded(set0.env, log', head', None).value; Walks(again, j.c.(provenance := provenance), IndexState(s), mint)
    ensures var s := Folded(set0.env, log', head', None).value; PlanOps(j.c.(provenance := provenance), IndexState(s), mint, Plan(again)) == []
  {
    ImportReplays(set0, log, head, tip, j, o, cs, hash, log', head', after);
    hide *;
    SecondImportIsIdle(set0.env.sha, j, o, provenance, mint, again);
  }

  // ---------------------------------------------------------------- the importer's method

  /** What the header of a built changeset holds beside parents and operations, and the signer. */
  datatype Heading = Heading(author: string, key: string, timestamp: string, intent: string, schema: string, sign: string -> string)

  /** The built changeset and its hash. */
  function Built(sha: Sha, head: Option<string>, h: Heading, ops: seq<Value>): (Value, string)
    requires ops != []
  {
    BuiltChangeset(sha, head, h.author, h.key, h.timestamp, h.intent, h.schema, ops, "");
    var body := Body(head, h.author, h.key, h.timestamp, h.intent, h.schema, ops);
    var hash := ChangesetHash(sha, Map(body)).value.0;
    (Signed(body, hash, h.sign(hash)), hash)
  }

  lemma BuiltOnHead(sha: Sha, head: Option<string>, h: Heading, ops: seq<Value>)
    requires ops != []
    ensures var b := Built(sha, head, h, ops); SameTip(FirstParent(b.0), head) && CheckHeader(sha, b.0) == Ok(ops)
  {
    hide Body, ChangesetHash, CheckHeader, FirstParent, Signed;
    var hash := Built(sha, head, h, ops).1;
    BuiltChangeset(sha, head, h.author, h.key, h.timestamp, h.intent, h.schema, ops, h.sign(hash));
  }

  /** The state is what earlier imports left, the schema takes the commit's code, the chain is guarded and the hash new. */
  ghost predicate Importable(set0: Setting, log: map<string, Value>, head: Option<string>, tip: Tip, j: Job, hash: string)
    requires Ends(log, head)
  {
    && j.s == tip.state && Ready(j) && AcceptsCode(tip.reg, j.c) && Short(hash) !in log
    && ChainOf(log, head).Ok? && GuardedRun(set0.env, map[], true, ChainOf(log, head).value)
  }

  /** What an import leaves: a guarded log that folds to a state whose index is exactly the commit. */
  ghost predicate HoldsCommit(set0: Setting, log: map<string, Value>, head: Option<string>, c: Commit)
    requires Ends(log, head)
  {
    && ChainOf(log, head).Ok? && GuardedRun(set0.env, map[], true, ChainOf(log, head).value)
    && Folded(set0.env, log, head, None).Ok? && Exact(c, IndexState(Folded(set0.env, log, head, None).value))
  }

  lemma BuiltImportReplays(set0: Setting, log: map<string, Value>, head: Option<string>, tip: Tip, j: Job, o: Orders, h: Heading,
                           log': map<string, Value>, head': Option<string>, after: Objects)
    requires IsTip(set0, log, head, tip) && Walks(o, j.c, IndexState(j.s), j.mint) && ImportOps(j, o) != []
    requires var b := Built(set0.env.sha, head, h, ImportOps(j, o));
             Importable(set0, log, head, tip, j, b.1) && Accepts(set0, tip, b.0, b.1, log, log', head', after)
    ensures Ends(log', head') && HoldsCommit(set0, log', head', j.c)
  {
    var b := Built(set0.env.sha, head, h, ImportOps(j, o));
    hide Built, IsTip, Ready, AcceptsCode, Walks, ImportOps, GuardedRun, Accepts, Exact, Imported, Folded, IndexState, SameTip, CheckHeader, ChainOf, Laid;
    BuiltOnHead(set0.env.sha, head, h, ImportOps(j, o));
    ImportReplays(set0, log, head, tip, j, o, b.0, b.1, log', head', after);
  }

  /**
   * Fold, index, compare, build, admit or hold. Nothing to change is an error, and an import that is not
   * admitted leaves the log alone. When it is admitted, the graph holds the commit.
   */
  method ImportCommit(set0: Setting, g: Graph, c: Commit, mint: CodeMint, o: Orders, h: Heading)
    returns (r: Result<(string, bool)>, ghost tip: Tip)
    requires Ends(g.log, g.head)
    requires Folded(set0.env, g.log, g.head, None).Ok? ==> Walks(o, c, IndexState(Folded(set0.env, g.log, g.head, None).value), mint)
    modifies g
    ensures r.Ok? ==> IsTip(set0, old(g.log), old(g.head), tip) && PlanOps(c, IndexState(tip.state), mint, Plan(o)) != []
    ensures r.Ok? && r.value.1 ==> g.head == Some(r.value.0)
    ensures r.Ok? && r.value.1 ==>
              forall l :: Importable(set0, old(g.log), old(g.head), tip, Job(c, tip.state, l, mint), r.value.0) ==> Ends(g.log, g.head) && HoldsCommit(set0, g.log, g.head, c)
    ensures r.Ok? && !r.value.1 ==> Short(r.value.0) in g.proposals
    ensures !(r.Ok? && r.value.1) ==> g.log == old(g.log) && g.head == old(g.head)
  {
    hide IsTip, Walks, Folded, Built, Governed, Accepts, Importable, HoldsCommit, PlanOps, Plan, Stuck, ChainOf;
    tip := Tip(map[], EMPTY, Null);
    var state := g.FoldTo(set0.env, None);
    if state.Err? {
      return Err(state.error), tip;
    }
    var idx := IndexStateLoops(state.value);
    var ops := DiffCommit(c, idx, mint, o);
    if ops == [] {
      return Err("nothing changed at this commit"), tip;
    }
    var (cs, hash) := Built(set0.env.sha, g.head, h, ops);
    ghost var log, head := g.log, g.head;
    var outcome;
    ghost var after;
    outcome, tip, after := AdmitOrHold(set0, g, h.author, cs, hash, []);
    if outcome.Err? {
      return Err(outcome.error), tip;
    }
    TipIsFolded(set0, log, head, tip);
    r := Ok((hash, outcome.value == Admitted));
    if outcome.value == Admitted {
      AcceptedNamesHead(set0, tip, cs, hash, log, g.log, g.head, after);
      forall l | Importable(set0, log, head, tip, Job(c, tip.state, l, mint), hash) ensures Ends(g.log, g.head) && HoldsCommit(set0, g.log, g.head, c) {
        BuiltImportReplays(set0, log, head, tip, Job(c, tip.state, l, mint), o, h, g.log, g.head, after);
      }
    }
  }

  lemma TipIsFolded(set0: Setting, log: map<string, Value>, head: Option<string>, tip: Tip)
    requires IsTip(set0, log, head, tip)
    ensures Ends(log, head) && Folded(set0.env, log, head, None) == Ok(tip.state)
  {
    hide Folded, FromState, PolicyOf;
  }
}
