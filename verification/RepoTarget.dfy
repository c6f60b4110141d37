/**
 * What one import changes, slot by slot: the object minted for a slot is made, made again, dropped
 * or left alone (crates/allod-graph/src/repo.rs:402-590).
 */
module RepoTarget {
  import opened Text
  import opened Values
  import opened Hashing
  import opened Objects
  import opened Fold
  import opened RepoImport
  import opened RepoLayout

  /** An import at work: the commit, the state, its layout, and the ids to be minted. */
  datatype Job = Job(c: Commit, s: Objects, l: Layout, mint: Mint)

  datatype Change =
    | Make(content: map<string, Value>)
    | Remake(content: map<string, Value>, prior: string)
    | Drop(prior: string)

  function IdOf(j: Job, slot: Slot): string {
    if slot in j.l.ids then j.l.ids[slot] else j.mint(slot)
  }

  function KeyOfSlot(j: Job, slot: Slot): Key {
    (KindOf(slot), IdOf(j, slot))
  }

  function Ref(j: Job, slot: Slot): string {
    NodeRef(IdOf(j, slot))
  }

  /** The commit's calls, as references to the items they join. */
  function Refs(j: Job): set<(string, string)> {
    set p | p in j.c.calls && p.0 in j.c.items && p.1 in j.c.items :: (Ref(j, ItemSlot(p.0)), Ref(j, ItemSlot(p.1)))
  }

  predicate Wanted(j: Job, slot: Slot) {
    match slot
    case RepoSlot => true
    case FileSlot(p) => p in j.c.blobs
    case InRepoSlot(p) => p in j.c.blobs
    case ItemSlot(key) => key in j.c.items
    case DeclaresSlot(key) => key in j.c.items
    case CallSlot(pair) => pair in Refs(j)
  }

  function Content(j: Job, slot: Slot): map<string, Value>
    requires Wanted(j, slot)
  {
    var id := IdOf(j, slot);
    match slot
    case RepoSlot => RepoContent(j.c, id)
    case FileSlot(p) => FileContent(j.c, id, p)
    case InRepoSlot(p) => EdgePayload(id, "code/in_repo@1", Ref(j, FileSlot(p)), Ref(j, RepoSlot), j.c.provenance)
    case ItemSlot(key) => ItemContent(j.c, id, key)
    case DeclaresSlot(key) => EdgePayload(id, "code/declares@1", Ref(j, FileSlot(key.0)), Ref(j, ItemSlot(key)), j.c.provenance)
    case CallSlot(pair) => EdgePayload(id, "code/calls@1", pair.0, pair.1, j.c.provenance)
  }

  /** The object of the slot no longer says what the commit says. */
  predicate Stale(j: Job, slot: Slot)
    requires Wanted(j, slot) && slot in j.l.ids
  {
    match slot
    case FileSlot(p) => p in j.l.blobs && j.l.blobs[p] != BlobRef(j.c, p)
    case ItemSlot(key) => KeyIn(j.l, slot) in j.s && ContentDiffers(j.s[KeyIn(j.l, slot)].content, ItemAttributes(key, j.c.items[key]))
    case _ => false
  }

  function RevAt(j: Job, slot: Slot): string {
    if KeyOfSlot(j, slot) in j.s then j.s[KeyOfSlot(j, slot)].rev else ""
  }

  function ChangeFor(j: Job, slot: Slot): Option<Change> {
    if Wanted(j, slot) then
      if slot !in j.l.ids then Some(Make(Content(j, slot)))
      else if Stale(j, slot) then Some(Remake(Content(j, slot), RevAt(j, slot)))
      else None
    else if slot in j.l.ids then Some(Drop(RevAt(j, slot)))
    else None
  }

  function OpOf(k: Key, ch: Change): Value {
    match ch
    case Make(content) => CreateOp(content)
    case Remake(content, prior) => UpdateOp(content, prior)
    case Drop(prior) => DeleteOp(k.0, k.1, prior)
  }

  function SlotOps(j: Job, slot: Slot): seq<Value> {
    match ChangeFor(j, slot)
    case None => []
    case Some(ch) => [OpOf(KeyOfSlot(j, slot), ch)]
  }

  function SlotsOps(j: Job, slots: seq<Slot>): seq<Value> {
    if slots == [] then [] else SlotsOps(j, slots[..|slots| - 1]) + SlotOps(j, slots[|slots| - 1])
  }

  // ---------------------------------------------------------------- the program's loops, slot by slot

  function TaskSlots(j: Job, task: Task): seq<Slot> {
    match task
    case RepoTask => [RepoSlot]
    case FileTask(p) => if p in j.c.blobs then [FileSlot(p), InRepoSlot(p)] else []
    case ItemTask(key) => if key in j.c.items then [ItemSlot(key), DeclaresSlot(key)] else []
    case CallTask(pair) => [CallSlot(pair)]
    case GoneCall(pair) => if pair in Refs(j) then [] else [CallSlot(pair)]
    case GoneItem(key) => if key in j.c.items then [] else [DeclaresSlot(key), ItemSlot(key)]
    case GoneFile(p) => if p in j.c.blobs then [] else [InRepoSlot(p), FileSlot(p)]
  }

  function PlanSlots(j: Job, plan: seq<Task>): seq<Slot> {
    if plan == [] then [] else PlanSlots(j, plan[..|plan| - 1]) + TaskSlots(j, plan[|plan| - 1])
  }

  /** What the scanner guarantees of a commit: items are in files of the commit, calls join functions of it. */
  ghost predicate Sane(c: Commit) {
    && (forall key :: key in c.items ==> key.0 in c.blobs && key.1 != "interface")
    && (forall p :: p in c.calls ==> p.0 in c.items && p.1 in c.items && p.0.1 == "fn" && p.1.1 == "fn")
  }

  lemma IdsAgree(j: Job, idx: Index)
    requires Agrees(idx, j.s, j.l)
    ensures RepoId(idx, j.mint) == IdOf(j, RepoSlot)
    ensures forall p :: FileId(idx, j.mint, p) == IdOf(j, FileSlot(p))
    ensures forall key :: ItemId(idx, j.mint, key) == IdOf(j, ItemSlot(key))
  {
    assert Holds(idx, j.s, j.l, RepoSlot, RepoSlot in j.l.ids);
    forall p ensures FileId(idx, j.mint, p) == IdOf(j, FileSlot(p)) {
      assert Holds(idx, j.s, j.l, FileSlot(p), FileSlot(p) in j.l.ids);
    }
    forall key ensures ItemId(idx, j.mint, key) == IdOf(j, ItemSlot(key)) {
      assert Holds(idx, j.s, j.l, ItemSlot(key), ItemSlot(key) in j.l.ids);
    }
  }

  lemma RefsAgree(j: Job, idx: Index)
    requires Agrees(idx, j.s, j.l)
    ensures CallRefs(j.c, idx, j.mint) == Refs(j)
  {
    IdsAgree(j, idx);
    hide Agrees, IdOf, ItemId, NodeRef;
  }

  lemma OneSlot(j: Job, a: Slot)
    ensures SlotsOps(j, [a]) == SlotOps(j, a)
  {
    hide SlotOps;
    assert [a][..0] == [];
    assert SlotsOps(j, []) + SlotOps(j, a) == SlotOps(j, a);
  }

  lemma TwoSlots(j: Job, a: Slot, b: Slot)
    ensures SlotsOps(j, [a, b]) == SlotOps(j, a) + SlotOps(j, b)
  {
    OneSlot(j, a);
    hide SlotOps;
    assert [a, b][..1] == [a];
  }

  /** The index has the entry of a slot, as the layout has it. */
  lemma Slotted(j: Job, idx: Index, slot: Slot)
    requires Agrees(idx, j.s, j.l)
    ensures slot in j.l.ids ==> KeyIn(j.l, slot) in j.s
    ensures Holds(idx, j.s, j.l, slot, slot in j.l.ids)
  {
  }

  lemma FileTaskOps(j: Job, idx: Index, p: string)
    requires Whole(j.l) && Agrees(idx, j.s, j.l) && p in j.c.blobs
    ensures FileOps(j.c, idx, j.mint, p) == SlotOps(j, FileSlot(p)) + SlotOps(j, InRepoSlot(p))
  {
    Slotted(j, idx, FileSlot(p));
    IdsAgree(j, idx);
    assert FileSlot(p) in j.l.ids <==> InRepoSlot(p) in j.l.ids;
    hide Agrees, Whole, FileContent, EdgePayload, BlobRef, NodeRef;
  }

  lemma ItemTaskOps(j: Job, idx: Index, key: ItemKey)
    requires Whole(j.l) && Agrees(idx, j.s, j.l) && key in j.c.items && Sane(j.c)
    ensures ItemOps(j.c, idx, j.mint, key) == SlotOps(j, ItemSlot(key)) + SlotOps(j, DeclaresSlot(key))
  {
    hide Agrees, Whole, Sane, Refs, ItemContent, EdgePayload, NodeRef, ContentDiffers, ItemAttributes, Stale, Content, RevAt, FileId;
    Slotted(j, idx, ItemSlot(key));
    IdsAgree(j, idx);
    ItemChange(j, key);
    DeclaresChange(j, key);
  }

  /** The change of a wanted item, spelled out. */
  lemma ItemChange(j: Job, key: ItemKey)
    requires key in j.c.items
    ensures ItemSlot(key) !in j.l.ids ==> SlotOps(j, ItemSlot(key)) == [CreateOp(ItemContent(j.c, IdOf(j, ItemSlot(key)), key))]
    ensures ItemSlot(key) in j.l.ids && KeyIn(j.l, ItemSlot(key)) in j.s ==>
              var o := j.s[KeyIn(j.l, ItemSlot(key))];
              SlotOps(j, ItemSlot(key)) == if ContentDiffers(o.content, ItemAttributes(key, j.c.items[key]))
                                           then [UpdateOp(ItemContent(j.c, IdOf(j, ItemSlot(key)), key), o.rev)] else []
  {
    hide Refs, ItemContent, ContentDiffers, ItemAttributes;
  }

  lemma DeclaresChange(j: Job, key: ItemKey)
    requires Whole(j.l) && Sane(j.c) && key in j.c.items
    ensures SlotOps(j, DeclaresSlot(key)) ==
            if ItemSlot(key) in j.l.ids then []
            else [CreateOp(EdgePayload(j.mint(DeclaresSlot(key)), "code/declares@1", Ref(j, FileSlot(key.0)), Ref(j, ItemSlot(key)), j.c.provenance))]
    ensures key.0 in j.c.blobs
  {
    assert ItemSlot(key) in j.l.ids <==> DeclaresSlot(key) in j.l.ids;
    hide Refs, EdgePayload, Whole;
  }

  lemma GoneItemTaskOps(j: Job, idx: Index, key: ItemKey)
    requires Whole(j.l) && Agrees(idx, j.s, j.l) && key in idx.items && key !in j.c.items
    ensures GoneItemOps(j.c, idx, key) == SlotOps(j, DeclaresSlot(key)) + SlotOps(j, ItemSlot(key))
  {
    Slotted(j, idx, ItemSlot(key));
    Slotted(j, idx, DeclaresSlot(key));
    hide Agrees, Whole, DeleteOp;
  }

  lemma GoneFileTaskOps(j: Job, idx: Index, p: string)
    requires Whole(j.l) && Agrees(idx, j.s, j.l) && p in idx.files && p !in j.c.blobs
    ensures GoneFileOps(j.c, idx, p) == SlotOps(j, InRepoSlot(p)) + SlotOps(j, FileSlot(p))
  {
    Slotted(j, idx, FileSlot(p));
    Slotted(j, idx, InRepoSlot(p));
    hide Agrees, Whole, DeleteOp;
  }

  /** Tasks come from the maps the program walks. */
  ghost predicate Proper(j: Job, idx: Index, task: Task) {
    match task
    case CallTask(pair) => pair in Refs(j)
    case GoneCall(pair) => pair in idx.calls
    case GoneItem(key) => key in idx.items
    case GoneFile(p) => p in idx.files
    case _ => true
  }

  lemma CallTaskOps(j: Job, idx: Index, pair: (string, string))
    requires Agrees(idx, j.s, j.l)
    ensures pair in Refs(j) ==> CallOps(j.c, idx, j.mint, pair) == SlotOps(j, CallSlot(pair))
    ensures pair in idx.calls && pair !in Refs(j) ==> GoneCallOps(j.c, idx, j.mint, pair) == SlotOps(j, CallSlot(pair))
    ensures pair in idx.calls && pair in Refs(j) ==> GoneCallOps(j.c, idx, j.mint, pair) == []
  {
    Slotted(j, idx, CallSlot(pair));
    RefsAgree(j, idx);
    hide Agrees, Refs, CallRefs, DeleteOp, EdgePayload;
  }

  lemma RepoTaskOps(j: Job, idx: Index)
    requires Agrees(idx, j.s, j.l)
    ensures RepoOps(j.c, idx, j.mint) == SlotOps(j, RepoSlot)
  {
    Slotted(j, idx, RepoSlot);
    hide Agrees, RepoContent;
  }

  /** What a turn of a loop emits is what the changes of its slots emit. */
  lemma TaskOpsAreSlots(j: Job, idx: Index, task: Task)
    requires Whole(j.l) && Agrees(idx, j.s, j.l) && Sane(j.c) && Proper(j, idx, task)
    ensures TaskOps(j.c, idx, j.mint, task) == SlotsOps(j, TaskSlots(j, task))
  {
    hide Whole, Agrees, Sane, SlotOps, SlotsOps, RepoOps, FileOps, ItemOps, CallOps, GoneCallOps, GoneItemOps, GoneFileOps, Refs;
    assert SlotsOps(j, []) == [] by {
      NoSlots(j);
    }
    match task {
      case RepoTask =>
        RepoTaskOps(j, idx);
        OneSlot(j, RepoSlot);
      case FileTask(p) =>
        if p in j.c.blobs {
          FileTaskOps(j, idx, p);
          TwoSlots(j, FileSlot(p), InRepoSlot(p));
        }
      case ItemTask(key) =>
        if key in j.c.items {
          ItemTaskOps(j, idx, key);
          TwoSlots(j, ItemSlot(key), DeclaresSlot(key));
        }
      case CallTask(pair) =>
        CallTaskOps(j, idx, pair);
        OneSlot(j, CallSlot(pair));
      case GoneCall(pair) =>
        CallTaskOps(j, idx, pair);
        OneSlot(j, CallSlot(pair));
      case GoneItem(key) =>
        GoneItemTask(j, idx, key);
      case GoneFile(p) =>
        GoneFileTask(j, idx, p);
    }
  }

  lemma NoSlots(j: Job)
    ensures SlotsOps(j, []) == []
  {
  }

  lemma GoneItemTask(j: Job, idx: Index, key: ItemKey)
    requires Whole(j.l) && Agrees(idx, j.s, j.l) && key in idx.items
    ensures GoneItemOps(j.c, idx, key) == SlotsOps(j, TaskSlots(j, GoneItem(key)))
  {
    hide Whole, Agrees, SlotOps;
    if key !in j.c.items {
      GoneItemTaskOps(j, idx, key);
      TwoSlots(j, DeclaresSlot(key), ItemSlot(key));
    }
  }

  lemma GoneFileTask(j: Job, idx: Index, p: string)
    requires Whole(j.l) && Agrees(idx, j.s, j.l) && p in idx.files
    ensures GoneFileOps(j.c, idx, p) == SlotsOps(j, TaskSlots(j, GoneFile(p)))
  {
    hide Whole, Agrees, SlotOps;
    if p !in j.c.blobs {
      GoneFileTaskOps(j, idx, p);
      TwoSlots(j, InRepoSlot(p), FileSlot(p));
    }
  }

  lemma {:induction false} SlotsOpsAppend(j: Job, a: seq<Slot>, b: seq<Slot>)
    ensures SlotsOps(j, a + b) == SlotsOps(j, a) + SlotsOps(j, b)
    decreases |b|
  {
    hide SlotOps;
    if b == [] {
      assert a + b == a;
    } else {
      SlotsOpsAppend(j, a, b[..|b| - 1]);
      assert (a + b)[..|a + b| - 1] == a + b[..|b| - 1];
    }
  }

  lemma {:induction false} PlanOpsAreSlots(j: Job, idx: Index, plan: seq<Task>)
    requires Whole(j.l) && Agrees(idx, j.s, j.l) && Sane(j.c) && forall task :: task in plan ==> Proper(j, idx, task)
    ensures PlanOps(j.c, idx, j.mint, plan) == SlotsOps(j, PlanSlots(j, plan))
  {
    hide Whole, Agrees, Sane, TaskOps, TaskSlots, SlotsOps, Proper;
    if plan != [] {
      var init, last := plan[..|plan| - 1], plan[|plan| - 1];
      PlanOpsAreSlots(j, idx, init);
      TaskOpsAreSlots(j, idx, last);
      SlotsOpsAppend(j, PlanSlots(j, init), TaskSlots(j, last));
    } else {
      NoSlots(j);
    }
  }
}
