/**
 * The fold accepts the operations of an import, and what the state then holds
 * (crates/allod-graph/src/repo.rs:402-590, crates/allod-core/src/fold.rs:150-292).
 */
module RepoApply {
  import opened Text
  import opened Values
  import opened Hashing
  import opened Model
  import opened Objects
  import opened Registries
  import opened Fold
  import opened RepoImport
  import opened RepoLayout
  import opened RepoTarget

  /** Minted ids are new to the state and to each other. */
  ghost predicate FreshIds(s: Objects, mint: Mint) {
    && (forall a, b :: mint(a) == mint(b) ==> a == b)
    && forall a :: ("node", mint(a)) !in s && ("edge", mint(a)) !in s
  }

  ghost predicate Ready(j: Job) {
    Laid(j.s, j.l) && FreshIds(j.s, j.mint) && Sane(j.c)
  }

  lemma KindIs(slot: Slot)
    ensures KindOf(slot) == "node" || KindOf(slot) == "edge"
  {
  }

  /** Different slots have different keys. */
  lemma KeysDiffer(j: Job, a: Slot, b: Slot)
    requires Ready(j) && KeyOfSlot(j, a) == KeyOfSlot(j, b)
    ensures a == b
  {
    KindIs(a);
    if a in j.l.ids {
      LaidIsHeld(j.s, j.l, a);
    }
    if b in j.l.ids {
      LaidIsHeld(j.s, j.l, b);
    }
    assert a in j.l.ids && b in j.l.ids ==> KeyIn(j.l, a) == KeyIn(j.l, b);
    hide Live, CodeIn, KindOf, Sane;
  }

  // ---------------------------------------------------------------- the state after some slots

  function Effect(sha: Sha, j: Job, slot: Slot, ch: Change): Obj
    requires ch.Drop? ==> KeyOfSlot(j, slot) in j.s
  {
    match ch
    case Make(content) => NewObject(sha, Map(content))
    case Remake(content, _) => NewObject(sha, Map(content))
    case Drop(_) => j.s[KeyOfSlot(j, slot)].(deleted := true)
  }

  lemma DropIsHeld(j: Job, slot: Slot)
    requires Laid(j.s, j.l) && slot in j.l.ids
    ensures KeyOfSlot(j, slot) in j.s && KeyOfSlot(j, slot) == KeyIn(j.l, slot)
    ensures Live(j.s, KeyOfSlot(j, slot)) == CodeIn(j.l, slot) && !j.s[KeyOfSlot(j, slot)].deleted
  {
    LaidIsHeld(j.s, j.l, slot);
    assert CodeIn(j.l, slot) != Other;
  }

  /** The state after the changes of some slots. */
  function After(sha: Sha, j: Job, slots: seq<Slot>): Objects
    requires Laid(j.s, j.l)
  {
    if slots == [] then j.s
    else
      var before, slot := After(sha, j, slots[..|slots| - 1]), slots[|slots| - 1];
      match ChangeFor(j, slot)
      case None => before
      case Some(ch) =>
        if ch.Drop? then (DropIsHeld(j, slot); before[KeyOfSlot(j, slot) := Effect(sha, j, slot, ch)])
        else before[KeyOfSlot(j, slot) := Effect(sha, j, slot, ch)]
  }

  lemma DropMeansLaid(j: Job, slot: Slot)
    requires Laid(j.s, j.l) && ChangeFor(j, slot).Some? && !ChangeFor(j, slot).value.Make?
    ensures slot in j.l.ids && KeyOfSlot(j, slot) in j.s
  {
    hide Wanted, Stale, Content;
    DropIsHeld(j, slot);
  }

  /** `k` is the key of one of the slots, and that slot has a change. */
  ghost predicate Changed(j: Job, slots: seq<Slot>, k: Key) {
    exists slot :: slot in slots && ChangeFor(j, slot).Some? && KeyOfSlot(j, slot) == k
  }

  lemma {:induction false} AfterElsewhere(sha: Sha, j: Job, slots: seq<Slot>, k: Key)
    requires Laid(j.s, j.l) && !Changed(j, slots, k)
    ensures k in After(sha, j, slots) <==> k in j.s
    ensures k in j.s ==> After(sha, j, slots)[k] == j.s[k]
  {
    hide Laid, ChangeFor, KeyOfSlot, Effect;
    if slots == [] {
    } else {
      var init, last := slots[..|slots| - 1], slots[|slots| - 1];
      assert slots == init + [last];
      assert last in slots;
      AfterElsewhere(sha, j, init, k);
    }
  }

  lemma {:induction false} AfterAt(sha: Sha, j: Job, slots: seq<Slot>, slot: Slot)
    requires Ready(j) && slot in slots && ChangeFor(j, slot).Some?
    ensures ChangeFor(j, slot).value.Drop? ==> KeyOfSlot(j, slot) in j.s
    ensures KeyOfSlot(j, slot) in After(sha, j, slots)
    ensures After(sha, j, slots)[KeyOfSlot(j, slot)] == Effect(sha, j, slot, ChangeFor(j, slot).value)
  {
    hide FreshIds, Sane, Laid, ChangeFor, KeyOfSlot, Effect;
    if ChangeFor(j, slot).value.Drop? {
      DropMeansLaid(j, slot);
    }
    var init, last := slots[..|slots| - 1], slots[|slots| - 1];
    assert slots == init + [last];
    if last != slot {
      AfterAt(sha, j, init, slot);
      if KeyOfSlot(j, last) == KeyOfSlot(j, slot) {
        KeysDiffer(j, last, slot);
      }
    }
  }

  // ---------------------------------------------------------------- what the contents are to the indexer

  /** The layout the import aims at. */
  function Target(j: Job): Layout {
    Layout(map slot | slot in WantedSlots(j) :: IdOf(j, slot), map p | p in j.c.blobs :: BlobRef(j.c, p))
  }

  function WantedSlots(j: Job): set<Slot> {
    {RepoSlot} + (set p | p in j.c.blobs :: FileSlot(p)) + (set p | p in j.c.blobs :: InRepoSlot(p))
    + (set key | key in j.c.items :: ItemSlot(key)) + (set key | key in j.c.items :: DeclaresSlot(key))
    + (set pair | pair in Refs(j) :: CallSlot(pair))
  }

  lemma TargetIds(j: Job, slot: Slot)
    ensures slot in Target(j).ids <==> Wanted(j, slot)
    ensures Wanted(j, slot) ==> Target(j).ids[slot] == IdOf(j, slot)
  {
    hide IdOf, Refs, BlobRef;
  }

  lemma TypeRead(content: Value, t: string)
    requires GetStr(content, "type") == Some(t + "@1") && '@' !in t
    ensures TypeOf(content) == t
  {
    BareVersioned(t);
    hide Bare;
  }

  lemma NodeReads(id: string, t: string, attributes: Value, provenance: Value)
    requires '@' !in t
    ensures CodeOf("node", Map(NodePayload(id, t + "@1", attributes, provenance)))
         == NodeCode(t, Map(NodePayload(id, t + "@1", attributes, provenance)))
    ensures AttributesOf(Map(NodePayload(id, t + "@1", attributes, provenance))) == attributes
  {
    TypeRead(Map(NodePayload(id, t + "@1", attributes, provenance)), t);
    hide TypeOf, NodeCode;
  }

  lemma EdgeReads(id: string, t: string, from: string, to: string, provenance: Value)
    requires '@' !in t
    ensures CodeOf("edge", Map(EdgePayload(id, t + "@1", from, to, provenance))) ==
            (if t == "code/in_repo" then InRepo(from, to) else if t == "code/declares" then Declares(from, to)
             else if t == "code/calls" then Calls(from, to) else Other)
  {
    var content := Map(EdgePayload(id, t + "@1", from, to, provenance));
    assert "node"[0] != "edge"[0];
    assert GetStr(content, "from") == Some(from) && GetStr(content, "to") == Some(to);
    TypeRead(content, t);
    hide TypeOf, EdgePayload;
  }

  lemma FileReads(c: Commit, id: string, p: string)
    requires p in c.blobs
    ensures CodeOf("node", Map(FileContent(c, id, p))) == File(p, BlobRef(c, p))
  {
    hide NodePayload, CodeOf, BlobRef, NodeCode;
    FileAttributesRead(c, p);
    NodeReads(id, "code/SourceFile", FileAttributes(c, p), c.provenance);
    assert "code/SourceFile" + "@1" == "code/SourceFile@1";
    hide FileAttributes;
    FileCode(Map(FileContent(c, id, p)));
  }

  lemma FileAttributesRead(c: Commit, p: string)
    requires p in c.blobs
    ensures GetStr(FileAttributes(c, p), "path") == Some(p) && GetStr(FileAttributes(c, p), "blob") == Some(BlobRef(c, p))
  {
    hide BlobRef;
  }

  lemma FileCode(content: Value)
    ensures NodeCode("code/SourceFile", content) == File(Attr(content, "path"), Attr(content, "blob"))
  {
    assert |"code/SourceFile"| == 15 && |"code/Repository"| == 15 && "code/SourceFile"[5] == 'S' && "code/Repository"[5] == 'R';
    hide Attr, TypeKind;
  }

  lemma RepoReads(c: Commit, id: string)
    ensures CodeOf("node", Map(RepoContent(c, id))) == Repo
  {
    NodeReads(id, "code/Repository", Map(map["name" := Str(c.origin), "origin" := Str(c.locator)]), c.provenance);
    assert "code/Repository" + "@1" == "code/Repository@1";
    hide NodePayload, CodeOf;
  }

  lemma ItemTypes()
    ensures "code/Function" !in {"code/Repository", "code/SourceFile"}
    ensures "code/Type" !in {"code/Repository", "code/SourceFile", "code/Function"}
  {
    assert |"code/Function"| == 13 && |"code/Repository"| == 15 && |"code/SourceFile"| == 15 && |"code/Type"| == 9;
  }

  lemma ItemReads(c: Commit, id: string, key: ItemKey)
    requires key in c.items && key.1 != "interface"
    ensures CodeOf("node", Map(ItemContent(c, id, key))) == Item(key.1 == "fn", key.1, key.2)
  {
    ItemTypes();
    var m := ItemAttributes(key, c.items[key]);
    assert GetStr(m, "name") == Some(key.2);
    assert key.1 != "fn" ==> GetStr(m, "kind") == Some(if key.1 == "trait" then "interface" else key.1);
    if key.1 == "fn" {
      NodeReads(id, "code/Function", m, c.provenance);
      assert "code/Function" + "@1" == "code/Function@1";
    } else {
      NodeReads(id, "code/Type", m, c.provenance);
      assert "code/Type" + "@1" == "code/Type@1";
    }
    hide ItemAttributes, NodePayload, CodeOf;
  }

  lemma EdgeNames()
    ensures "code/in_repo" + "@1" == "code/in_repo@1" && "code/declares" + "@1" == "code/declares@1" && "code/calls" + "@1" == "code/calls@1"
    ensures "code/declares" != "code/in_repo" && "code/calls" !in {"code/in_repo", "code/declares"}
    ensures '@' !in "code/in_repo" && '@' !in "code/declares" && '@' !in "code/calls"
  {
    assert |"code/in_repo"| == 12 && |"code/declares"| == 13 && |"code/calls"| == 10;
  }

  lemma TargetRef(j: Job, slot: Slot)
    requires Wanted(j, slot)
    ensures RefIn(Target(j), slot) == Ref(j, slot)
  {
    TargetIds(j, slot);
    hide Wanted, Target, IdOf, NodeRef;
  }

  lemma WantedEnds(j: Job, slot: Slot)
    requires Wanted(j, slot) && Sane(j.c)
    ensures slot.InRepoSlot? ==> Wanted(j, FileSlot(slot.path)) && Wanted(j, RepoSlot)
    ensures slot.DeclaresSlot? ==> Wanted(j, ItemSlot(slot.key)) && Wanted(j, FileSlot(slot.key.0))
  {
    hide Refs;
  }

  /** What the import writes for a slot is, to the indexer, what the target says. */
  lemma ContentReads(j: Job, slot: Slot)
    requires Wanted(j, slot) && Sane(j.c)
    ensures CodeOf(KindOf(slot), Map(Content(j, slot))) == CodeIn(Target(j), slot)
  {
    WantedEnds(j, slot);
    EdgeNames();
    match slot {
      case RepoSlot =>
        RepoReads(j.c, IdOf(j, slot));
      case FileSlot(p) =>
        FileReads(j.c, IdOf(j, slot), p);
      case InRepoSlot(p) =>
        hide CodeOf, EdgePayload, Target, Refs, IdOf, RefIn, Sane;
        TargetRef(j, FileSlot(p));
        TargetRef(j, RepoSlot);
        EdgeReads(IdOf(j, slot), "code/in_repo", Ref(j, FileSlot(p)), Ref(j, RepoSlot), j.c.provenance);
      case ItemSlot(key) =>
        ItemReads(j.c, IdOf(j, slot), key);
      case DeclaresSlot(key) =>
        hide CodeOf, EdgePayload, Target, Refs, IdOf, RefIn, Sane;
        TargetRef(j, FileSlot(key.0));
        TargetRef(j, ItemSlot(key));
        EdgeReads(IdOf(j, slot), "code/declares", Ref(j, FileSlot(key.0)), Ref(j, ItemSlot(key)), j.c.provenance);
      case CallSlot(pair) =>
        hide CodeOf, EdgePayload, Target, Refs, IdOf;
        EdgeReads(IdOf(j, slot), "code/calls", pair.0, pair.1, j.c.provenance);
    }
  }

  /** A wanted object that is left alone already is what the target says. */
  lemma KeptReads(j: Job, slot: Slot)
    requires Ready(j) && Wanted(j, slot) && ChangeFor(j, slot).None?
    ensures slot in j.l.ids && CodeIn(j.l, slot) == CodeIn(Target(j), slot)
  {
    assert slot in j.l.ids && !Stale(j, slot);
    LaidIsHeld(j.s, j.l, slot);
    WantedEnds(j, slot);
    EndsHeld(j.s, j.l, slot);
    if slot.FileSlot? {
      assert slot.path in j.l.blobs;
    }
    if slot.InRepoSlot? {
      assert RepoSlot in j.l.ids;
      KeptRef(j, FileSlot(slot.path));
      KeptRef(j, RepoSlot);
    } else if slot.DeclaresSlot? {
      KeptRef(j, FileSlot(slot.key.0));
      KeptRef(j, ItemSlot(slot.key));
    }
    hide Laid, FreshIds, Live, IdOf, Refs, BlobRef, RefIn, ContentDiffers;
  }

  lemma KeptRef(j: Job, slot: Slot)
    requires Wanted(j, slot) && slot in j.l.ids
    ensures RefIn(j.l, slot) == RefIn(Target(j), slot)
  {
    TargetIds(j, slot);
    hide Target, Wanted, NodeRef;
  }

  /** Once its slot has been handled, a wanted object is live and is what the target says. */
  lemma WantedIsLive(sha: Sha, j: Job, slots: seq<Slot>, slot: Slot)
    requires Ready(j) && Wanted(j, slot) && (slot in slots || ChangeFor(j, slot).None?)
    ensures Live(After(sha, j, slots), KeyOfSlot(j, slot)) == CodeIn(Target(j), slot)
  {
    if ChangeFor(j, slot).Some? {
      AfterAt(sha, j, slots, slot);
      ContentReads(j, slot);
      assert !ChangeFor(j, slot).value.Drop?;
      hide Ready, After, CodeOf, Content, Target, CodeIn, IdOf, RevisionHash, Wanted, Stale;
    } else {
      KeptReads(j, slot);
      DropIsHeld(j, slot);
      NotChanged(j, slots, slot);
      hide Laid, FreshIds, Sane, After, CodeOf, CodeIn, Target, ChangeFor, Wanted;
      AfterElsewhere(sha, j, slots, KeyOfSlot(j, slot));
    }
  }

  lemma NotChanged(j: Job, slots: seq<Slot>, slot: Slot)
    requires Ready(j) && (slot !in slots || ChangeFor(j, slot).None?)
    ensures !Changed(j, slots, KeyOfSlot(j, slot))
  {
    hide Ready, ChangeFor, KeyOfSlot;
    if Changed(j, slots, KeyOfSlot(j, slot)) {
      var other :| other in slots && ChangeFor(j, other).Some? && KeyOfSlot(j, other) == KeyOfSlot(j, slot);
      KeysDiffer(j, other, slot);
    }
  }
}
