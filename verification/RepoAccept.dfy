/**
 * The fold accepts the operations of an import, one slot at a time
 * (crates/allod-graph/src/repo.rs:402-590, crates/allod-core/src/fold.rs:150-270).
 */
module RepoAccept {
  import opened Text
  import opened Values
  import opened Hashing
  import opened Model
  import opened Objects
  import opened Registries
  import opened Fold
  import opened RepoImport
  import opened RepoLayout
  import opened RepoTarget
  import opened RepoApply

  /** A function node; the stored kind of a type node does not make it one. */
  predicate IsFunction(code: Code) {
    code.Item? && code.callable
  }

  ghost predicate AcceptsNodes(reg: Registry, c: Commit) {
    && (forall id :: ValidateNode(reg, Map(RepoContent(c, id))).Ok?)
    && (forall id, p :: p in c.blobs ==> ValidateNode(reg, Map(FileContent(c, id, p))).Ok?)
    && (forall id, key :: key in c.items ==> ValidateNode(reg, Map(ItemContent(c, id, key))).Ok?)
  }

  ghost predicate AcceptsInRepo(reg: Registry, c: Commit) {
    forall m, id, f, g :: Live(m, ("node", f)).File? && Live(m, ("node", g)).Repo? ==>
      ValidateEdge(reg, m, Map(EdgePayload(id, "code/in_repo@1", NodeRef(f), NodeRef(g), c.provenance))).Ok?
  }

  ghost predicate AcceptsDeclares(reg: Registry, c: Commit) {
    forall m, id, f, g :: Live(m, ("node", f)).File? && Live(m, ("node", g)).Item? ==>
      ValidateEdge(reg, m, Map(EdgePayload(id, "code/declares@1", NodeRef(f), NodeRef(g), c.provenance))).Ok?
  }

  ghost predicate AcceptsCalls(reg: Registry, c: Commit) {
    forall m, id, f, g :: IsFunction(Live(m, ("node", f))) && IsFunction(Live(m, ("node", g))) ==>
      ValidateEdge(reg, m, Map(EdgePayload(id, "code/calls@1", NodeRef(f), NodeRef(g), c.provenance))).Ok?
  }

  /** The registry validates the nodes of the commit, and code edges between live code nodes of the right types. */
  ghost predicate AcceptsCode(reg: Registry, c: Commit) {
    AcceptsNodes(reg, c) && AcceptsInRepo(reg, c) && AcceptsDeclares(reg, c) && AcceptsCalls(reg, c)
  }

  predicate Handled(j: Job, slots: seq<Slot>, slot: Slot) {
    slot in slots || ChangeFor(j, slot).None?
  }

  /** The ends of the edge a slot makes are in place. */
  ghost predicate EndsReady(j: Job, slots: seq<Slot>, slot: Slot) {
    Wanted(j, slot) ==>
      match slot
      case InRepoSlot(p) => Handled(j, slots, FileSlot(p)) && Handled(j, slots, RepoSlot)
      case DeclaresSlot(key) => Handled(j, slots, FileSlot(key.0)) && Handled(j, slots, ItemSlot(key))
      case CallSlot(_) => forall key :: key in j.c.items ==> Handled(j, slots, ItemSlot(key))
      case _ => true
  }

  lemma EndIsLive(sha: Sha, j: Job, slots: seq<Slot>, end: Slot)
    requires Ready(j) && Wanted(j, end) && Handled(j, slots, end) && KindOf(end) == "node"
    ensures Live(After(sha, j, slots), ("node", IdOf(j, end))) == CodeIn(Target(j), end)
  {
    hide Ready, After, Target, CodeIn, Live, Wanted, ChangeFor, IdOf;
    WantedIsLive(sha, j, slots, end);
  }

  lemma InRepoValidates(sha: Sha, reg: Registry, j: Job, slots: seq<Slot>, p: string)
    requires Ready(j) && AcceptsInRepo(reg, j.c) && p in j.c.blobs && EndsReady(j, slots, InRepoSlot(p))
    ensures ValidateEdge(reg, After(sha, j, slots), Map(Content(j, InRepoSlot(p)))).Ok?
  {
    ReadyIsSane(j);
    hide Laid;
    assert Wanted(j, FileSlot(p)) && Wanted(j, RepoSlot);
    hide Ready, After, Target, Live, ChangeFor, IdOf, ValidateEdge, Refs, EdgePayload, NodeRef;
    EndIsLive(sha, j, slots, FileSlot(p));
    EndIsLive(sha, j, slots, RepoSlot);
  }

  lemma DeclaresValidates(sha: Sha, reg: Registry, j: Job, slots: seq<Slot>, key: ItemKey)
    requires Ready(j) && AcceptsDeclares(reg, j.c) && key in j.c.items && EndsReady(j, slots, DeclaresSlot(key))
    ensures ValidateEdge(reg, After(sha, j, slots), Map(Content(j, DeclaresSlot(key)))).Ok?
  {
    ReadyIsSane(j);
    hide Laid;
    assert Wanted(j, FileSlot(key.0)) && Wanted(j, ItemSlot(key));
    hide Ready, After, Target, Live, ChangeFor, IdOf, ValidateEdge, Refs, EdgePayload, NodeRef;
    EndIsLive(sha, j, slots, FileSlot(key.0));
    EndIsLive(sha, j, slots, ItemSlot(key));
  }

  lemma EndsOfCall(j: Job, pair: (string, string)) returns (a: ItemKey, b: ItemKey)
    requires Sane(j.c) && pair in Refs(j)
    ensures a in j.c.items && b in j.c.items && a.1 == "fn" && b.1 == "fn"
    ensures pair == (Ref(j, ItemSlot(a)), Ref(j, ItemSlot(b)))
  {
    hide IdOf, NodeRef;
    var p :| p in j.c.calls && p.0 in j.c.items && p.1 in j.c.items && pair == (Ref(j, ItemSlot(p.0)), Ref(j, ItemSlot(p.1)));
    a, b := p.0, p.1;
  }

  lemma ReadyIsSane(j: Job)
    requires Ready(j)
    ensures Laid(j.s, j.l) && Sane(j.c)
  {
  }

  lemma CallValidates(sha: Sha, reg: Registry, j: Job, slots: seq<Slot>, pair: (string, string))
    requires Ready(j) && AcceptsCalls(reg, j.c) && pair in Refs(j) && EndsReady(j, slots, CallSlot(pair))
    ensures ValidateEdge(reg, After(sha, j, slots), Map(Content(j, CallSlot(pair)))).Ok?
  {
    hide Ready, Laid, Sane, After, Target, Live, ChangeFor, IdOf, ValidateEdge, Refs, EdgePayload, NodeRef;
    ReadyIsSane(j);
    var a, b := EndsOfCall(j, pair);
    assert Wanted(j, ItemSlot(a)) && Wanted(j, ItemSlot(b)) && Wanted(j, CallSlot(pair));
    hide Wanted;
    EndIsLive(sha, j, slots, ItemSlot(a));
    EndIsLive(sha, j, slots, ItemSlot(b));
  }

  /** What a slot writes is valid where it is written. */
  lemma ContentValidates(sha: Sha, reg: Registry, j: Job, slots: seq<Slot>, slot: Slot)
    requires Ready(j) && AcceptsCode(reg, j.c) && Wanted(j, slot) && EndsReady(j, slots, slot)
    ensures ValidatePayload(reg, After(sha, j, slots), KindOf(slot), Map(Content(j, slot))).Ok?
  {
    assert "node"[0] != "edge"[0];
    hide AcceptsInRepo, AcceptsDeclares, AcceptsCalls;
    hide Ready, After, ValidateEdge, ValidateNode, Refs, IdOf, EndsReady, RepoContent, FileContent, ItemContent, EdgePayload;
    match slot {
      case RepoSlot =>
      case FileSlot(p) =>
      case InRepoSlot(p) =>
        InRepoValidates(sha, reg, j, slots, p);
      case ItemSlot(key) =>
      case DeclaresSlot(key) =>
        DeclaresValidates(sha, reg, j, slots, key);
      case CallSlot(pair) =>
        CallValidates(sha, reg, j, slots, pair);
    }
  }

  lemma ContentKey(j: Job, slot: Slot)
    requires Wanted(j, slot)
    ensures KeyOf(Map(Content(j, slot))) == Ok(KeyOfSlot(j, slot)) && "prior" !in Content(j, slot)
  {
    hide Refs, IdOf, FileAttributes, ItemAttributes, ItemType, NodeRef;
  }

  // ---------------------------------------------------------------- one operation

  lemma MakeApplies(sha: Sha, reg: Registry, w: Working, k: Key, content: map<string, Value>)
    requires KeyOf(Map(content)) == Ok(k) && k !in w.objects && ValidatePayload(reg, w.objects, k.0, Map(content)).Ok?
    ensures ApplyOp(sha, reg, w, CreateOp(content)).Ok?
    ensures ApplyOp(sha, reg, w, CreateOp(content)).value.objects == w.objects[k := NewObject(sha, Map(content))]
  {
    hide ValidatePayload, NewObject, ParseOp, KeyOf;
    ParsesSingle("create", Map(content));
  }

  lemma RemakeApplies(sha: Sha, reg: Registry, w: Working, k: Key, content: map<string, Value>, prior: string)
    requires KeyOf(Map(content)) == Ok(k) && "prior" !in content && ValidatePayload(reg, w.objects, k.0, Map(content)).Ok?
    requires k in w.objects && !w.objects[k].deleted && w.objects[k].rev == prior
    ensures ApplyOp(sha, reg, w, UpdateOp(content, prior)).Ok?
    ensures ApplyOp(sha, reg, w, UpdateOp(content, prior)).value.objects == w.objects[k := NewObject(sha, Map(content))]
  {
    var payload := Map(content["prior" := Str(prior)]);
    assert content["prior" := Str(prior)] - {"prior"} == content;
    assert Remove(payload, "prior") == Map(content) && GetStr(payload, "prior") == Some(prior);
    assert KeyOf(payload) == Ok(k);
    assert "update"[0] != "create"[0];
    hide ValidatePayload, NewObject, ParseOp, KeyOf, Remove, Create;
    ParsesSingle("update", payload);
  }

  lemma DropApplies(sha: Sha, reg: Registry, w: Working, k: Key, prior: string)
    requires k in w.objects && !w.objects[k].deleted && w.objects[k].rev == prior
    ensures ApplyOp(sha, reg, w, DeleteOp(k.0, k.1, prior)).Ok?
    ensures ApplyOp(sha, reg, w, DeleteOp(k.0, k.1, prior)).value.objects == w.objects[k := w.objects[k].(deleted := true)]
  {
    var payload := Map(map["kind" := Str(k.0), "id" := Str(k.1), "prior" := Str(prior)]);
    assert KeyOf(payload) == Ok(k) && GetStr(payload, "prior") == Some(prior);
    assert "delete"[0] != "create"[0] && "delete"[0] != "update"[0];
    hide ParseOp, KeyOf, Create, Update;
    ParsesSingle("delete", payload);
  }

  /** A slot not yet handled still has what the state had. */
  lemma Untouched(sha: Sha, j: Job, slots: seq<Slot>, slot: Slot)
    requires Ready(j) && slot !in slots
    ensures var m, k := After(sha, j, slots), KeyOfSlot(j, slot); (k in m <==> k in j.s) && (k in m ==> m[k] == j.s[k])
  {
    NotChanged(j, slots, slot);
    hide FreshIds, Sane, After, KeyOfSlot, ChangeFor, Live, CodeIn, Whole;
    AfterElsewhere(sha, j, slots, KeyOfSlot(j, slot));
  }

  lemma MintedIsNew(j: Job, slot: Slot)
    requires Ready(j) && slot !in j.l.ids
    ensures KeyOfSlot(j, slot) !in j.s
  {
    hide Laid, Sane;
  }

  lemma AfterMore(sha: Sha, j: Job, slots: seq<Slot>, slot: Slot)
    requires Laid(j.s, j.l) && ChangeFor(j, slot).Some?
    ensures ChangeFor(j, slot).value.Drop? ==> KeyOfSlot(j, slot) in j.s
    ensures After(sha, j, slots + [slot]) == After(sha, j, slots)[KeyOfSlot(j, slot) := Effect(sha, j, slot, ChangeFor(j, slot).value)]
  {
    if ChangeFor(j, slot).value.Drop? {
      DropMeansLaid(j, slot);
    }
    hide Laid, ChangeFor, KeyOfSlot, Effect;
    assert (slots + [slot])[..|slots|] == slots;
  }

  lemma MakeSlot(sha: Sha, reg: Registry, j: Job, slots: seq<Slot>, slot: Slot, w: Working)
    requires Ready(j) && AcceptsCode(reg, j.c) && slot !in slots && EndsReady(j, slots, slot)
    requires w.objects == After(sha, j, slots) && Wanted(j, slot) && slot !in j.l.ids
    ensures ApplyOp(sha, reg, w, CreateOp(Content(j, slot))).Ok?
    ensures ApplyOp(sha, reg, w, CreateOp(Content(j, slot))).value.objects == w.objects[KeyOfSlot(j, slot) := NewObject(sha, Map(Content(j, slot)))]
  {
    hide Ready, AcceptsCode, EndsReady, Content, Wanted, IdOf, ApplyOp, ValidatePayload, KeyOf, NewObject, CreateOp, After;
    Untouched(sha, j, slots, slot);
    MintedIsNew(j, slot);
    ContentKey(j, slot);
    ContentValidates(sha, reg, j, slots, slot);
    MakeApplies(sha, reg, w, KeyOfSlot(j, slot), Content(j, slot));
  }

  lemma RemakeSlot(sha: Sha, reg: Registry, j: Job, slots: seq<Slot>, slot: Slot, w: Working)
    requires Ready(j) && AcceptsCode(reg, j.c) && slot !in slots && EndsReady(j, slots, slot)
    requires w.objects == After(sha, j, slots) && Wanted(j, slot) && slot in j.l.ids
    ensures var op := UpdateOp(Content(j, slot), RevAt(j, slot));
            && ApplyOp(sha, reg, w, op).Ok?
            && ApplyOp(sha, reg, w, op).value.objects == w.objects[KeyOfSlot(j, slot) := NewObject(sha, Map(Content(j, slot)))]
  {
    ReadyIsLaid(j);
    hide Ready, AcceptsCode, EndsReady, Content, Wanted, IdOf, ApplyOp, ValidatePayload, KeyOf, NewObject, UpdateOp, After, Laid;
    Untouched(sha, j, slots, slot);
    DropIsHeld(j, slot);
    ContentKey(j, slot);
    ContentValidates(sha, reg, j, slots, slot);
    RemakeApplies(sha, reg, w, KeyOfSlot(j, slot), Content(j, slot), RevAt(j, slot));
  }

  lemma DropSlot(sha: Sha, reg: Registry, j: Job, slots: seq<Slot>, slot: Slot, w: Working)
    requires Ready(j) && slot !in slots
    requires w.objects == After(sha, j, slots) && slot in j.l.ids
    ensures KeyOfSlot(j, slot) in j.s
    ensures var k := KeyOfSlot(j, slot);
            var op := DeleteOp(k.0, k.1, RevAt(j, slot));
            && ApplyOp(sha, reg, w, op).Ok?
            && ApplyOp(sha, reg, w, op).value.objects == w.objects[k := j.s[k].(deleted := true)]
  {
    ReadyIsLaid(j);
    hide Ready, IdOf, ApplyOp, DeleteOp, After, Laid;
    Untouched(sha, j, slots, slot);
    DropIsHeld(j, slot);
    DropApplies(sha, reg, w, KeyOfSlot(j, slot), RevAt(j, slot));
  }

  lemma ReadyIsLaid(j: Job)
    requires Ready(j)
    ensures Laid(j.s, j.l)
  {
  }

  lemma ChangeCases(j: Job, slot: Slot)
    requires ChangeFor(j, slot).Some?
    ensures var ch := ChangeFor(j, slot).value;
            && (ch.Make? ==> Wanted(j, slot) && slot !in j.l.ids && ch.content == Content(j, slot))
            && (ch.Remake? ==> Wanted(j, slot) && slot in j.l.ids && ch.content == Content(j, slot) && ch.prior == RevAt(j, slot))
            && (ch.Drop? ==> slot in j.l.ids && ch.prior == RevAt(j, slot))
  {
    hide Wanted, Content, Stale, RevAt;
  }

  /** The operation of one more slot is accepted, and does what the slot's change says. */
  lemma SlotApplies(sha: Sha, reg: Registry, j: Job, slots: seq<Slot>, slot: Slot, w: Working)
    requires Ready(j) && AcceptsCode(reg, j.c) && slot !in slots && EndsReady(j, slots, slot)
    requires w.objects == After(sha, j, slots) && ChangeFor(j, slot).Some?
    ensures ApplyOp(sha, reg, w, OpOf(KeyOfSlot(j, slot), ChangeFor(j, slot).value)).Ok?
    ensures ApplyOp(sha, reg, w, OpOf(KeyOfSlot(j, slot), ChangeFor(j, slot).value)).value.objects == After(sha, j, slots + [slot])
  {
    hide Ready, AcceptsCode, EndsReady, Content, Wanted, ChangeFor, KeyOfSlot, ApplyOp, NewObject, CreateOp, UpdateOp, DeleteOp, After, Laid, RevAt;
    ReadyIsLaid(j);
    ChangeCases(j, slot);
    AfterMore(sha, j, slots, slot);
    match ChangeFor(j, slot).value {
      case Make(content) => MakeSlot(sha, reg, j, slots, slot, w);
      case Remake(content, prior) => RemakeSlot(sha, reg, j, slots, slot, w);
      case Drop(prior) => DropSlot(sha, reg, j, slots, slot, w);
    }
  }

  // ---------------------------------------------------------------- all operations

  /** Every slot comes after the slots of its ends. */
  ghost predicate InSequence(j: Job, slots: seq<Slot>) {
    Distinct(slots) && forall i :: 0 <= i < |slots| ==> EndsReady(j, slots[..i], slots[i])
  }

  lemma SequencePrefix(j: Job, slots: seq<Slot>)
    requires InSequence(j, slots) && slots != []
    ensures var n := |slots| - 1; InSequence(j, slots[..n]) && slots[n] !in slots[..n] && EndsReady(j, slots[..n], slots[n])
  {
    hide EndsReady;
    var n := |slots| - 1;
    forall i | 0 <= i < n ensures EndsReady(j, slots[..n][..i], slots[..n][i]) {
      assert slots[..n][..i] == slots[..i];
    }
  }

  /** The operations of slots in sequence are accepted one after the other. */
  lemma {:induction false} SlotsApply(sha: Sha, reg: Registry, j: Job, slots: seq<Slot>)
    requires Ready(j) && AcceptsCode(reg, j.c) && InSequence(j, slots)
    ensures ApplyOps(sha, reg, Working(j.s, [], []), SlotsOps(j, slots)).Ok?
    ensures ApplyOps(sha, reg, Working(j.s, [], []), SlotsOps(j, slots)).value.objects == After(sha, j, slots)
  {
    ReadyIsLaid(j);
    var w0 := Working(j.s, [], []);
    hide Ready, AcceptsCode, Laid, ApplyOp, OpOf, ChangeFor, KeyOfSlot, Effect;
    if slots == [] {
    } else {
      var init, last := slots[..|slots| - 1], slots[|slots| - 1];
      assert slots == init + [last];
      SequencePrefix(j, slots);
      hide InSequence, EndsReady;
      SlotsApply(sha, reg, j, init);
      var w := ApplyOps(sha, reg, w0, SlotsOps(j, init)).value;
      ApplyOpsAppend(sha, reg, w0, SlotsOps(j, init), SlotOps(j, last));
      if ChangeFor(j, last).Some? {
        SlotApplies(sha, reg, j, init, last, w);
        OneOp(sha, reg, w, OpOf(KeyOfSlot(j, last), ChangeFor(j, last).value));
      }
    }
  }
}
