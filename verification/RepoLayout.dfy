/**
 * Code subgraphs that only the importer has built, laid out by what each id was minted for, and what
 * the indexer finds in them (crates/allod-graph/src/repo.rs:179-302).
 */
module RepoLayout {
  import opened Text
  import opened Values
  import opened Objects
  import opened RepoImport

  /** The id of every code object, and the blob of every file. */
  datatype Layout = Layout(ids: map<Slot, string>, blobs: map<string, string>)

  function KindOf(slot: Slot): string {
    if slot.RepoSlot? || slot.FileSlot? || slot.ItemSlot? then "node" else "edge"
  }

  function KeyIn(l: Layout, slot: Slot): Key
    requires slot in l.ids
  {
    (KindOf(slot), l.ids[slot])
  }

  /** Edges come with their ends, items with their files, files with the repository. */
  ghost predicate Attached(l: Layout) {
    && (forall p :: FileSlot(p) in l.ids <==> p in l.blobs)
    && (forall p :: InRepoSlot(p) in l.ids <==> p in l.blobs)
    && (forall key :: ItemSlot(key) in l.ids <==> DeclaresSlot(key) in l.ids)
    && (forall key :: ItemSlot(key) in l.ids ==> key.0 in l.blobs)
    && (l.blobs != map[] ==> RepoSlot in l.ids)
  }

  /** Every id was minted for one slot. */
  ghost predicate Apart(l: Layout) {
    forall a, b :: a in l.ids && b in l.ids && KeyIn(l, a) == KeyIn(l, b) ==> a == b
  }

  ghost predicate Whole(l: Layout) {
    Attached(l) && Apart(l)
  }

  function RefIn(l: Layout, slot: Slot): string {
    NodeRef(if slot in l.ids then l.ids[slot] else "")
  }

  /** What the object minted for a slot is. */
  function CodeIn(l: Layout, slot: Slot): Code {
    match slot
    case RepoSlot => Repo
    case FileSlot(p) => File(p, if p in l.blobs then l.blobs[p] else "")
    case InRepoSlot(p) => InRepo(RefIn(l, FileSlot(p)), RefIn(l, RepoSlot))
    case ItemSlot(key) => Item(key.1 == "fn", key.1, key.2)
    case DeclaresSlot(key) => Declares(RefIn(l, FileSlot(key.0)), RefIn(l, ItemSlot(key)))
    case CallSlot(pair) => Calls(pair.0, pair.1)
  }

  /** The live code objects of the state are exactly those of the layout. */
  ghost predicate Laid(s: Objects, l: Layout) {
    && Whole(l)
    && (forall slot :: slot in l.ids ==> Live(s, KeyIn(l, slot)) == CodeIn(l, slot))
    && (forall k :: Live(s, k) != Other ==> exists slot :: slot in l.ids && k == KeyIn(l, slot))
  }

  function Entry(s: Objects, k: Key): (string, string)
    requires k in s
  {
    (k.1, s[k].rev)
  }

  /** The index has an entry for the slot exactly when `present`, and it is the object of the layout. */
  ghost predicate Holds(idx: Index, s: Objects, l: Layout, slot: Slot, present: bool)
    requires present ==> slot in l.ids && KeyIn(l, slot) in s
  {
    match slot
    case RepoSlot => idx.repo == if present then Some(l.ids[slot]) else None
    case FileSlot(p) =>
      && (p in idx.files <==> present)
      && (present ==> p in l.blobs && idx.files[p] == (l.ids[slot], s[KeyIn(l, slot)].rev, l.blobs[p]))
    case InRepoSlot(p) => (p in idx.inRepo <==> present) && (present ==> idx.inRepo[p] == Entry(s, KeyIn(l, slot)))
    case ItemSlot(key) =>
      && (key in idx.items <==> present)
      && (present ==> idx.items[key] == (l.ids[slot], s[KeyIn(l, slot)].rev, s[KeyIn(l, slot)].content))
    case DeclaresSlot(key) => (key in idx.declares <==> present) && (present ==> idx.declares[key] == Entry(s, KeyIn(l, slot)))
    case CallSlot(pair) => (pair in idx.calls <==> present) && (present ==> idx.calls[pair] == Entry(s, KeyIn(l, slot)))
  }

  lemma LaidIsHeld(s: Objects, l: Layout, slot: Slot)
    requires Laid(s, l) && slot in l.ids
    ensures KeyIn(l, slot) in s && Live(s, KeyIn(l, slot)) == CodeIn(l, slot)
  {
    assert CodeIn(l, slot) != Other;
  }

  /** What the index of a laid-out state holds. */
  ghost predicate Agrees(idx: Index, s: Objects, l: Layout) {
    && (forall slot :: slot in l.ids ==> KeyIn(l, slot) in s)
    && (forall slot :: Holds(idx, s, l, slot, slot in l.ids))
  }

  lemma NodeIdOfRef(id: string)
    ensures NodeId(NodeRef(id)) == Some(id)
  {
    assert ("node:" + id)[|"node:"|..] == id;
  }

  /** The slot behind a live code object. */
  lemma SlotOf(s: Objects, l: Layout, k: Key) returns (slot: Slot)
    requires Laid(s, l) && Live(s, k) != Other
    ensures slot in l.ids && k == KeyIn(l, slot) && Live(s, k) == CodeIn(l, slot)
  {
    slot :| slot in l.ids && k == KeyIn(l, slot);
  }

  // ---------------------------------------------------------------- the passes

  predicate SeenIn(l: Layout, keys: seq<Key>, slot: Slot) {
    slot in l.ids && KeyIn(l, slot) in keys
  }

  lemma OneMore(l: Layout, keys: seq<Key>, slot: Slot)
    requires keys != []
    ensures SeenIn(l, keys, slot) <==> SeenIn(l, keys[..|keys| - 1], slot) || (slot in l.ids && keys[|keys| - 1] == KeyIn(l, slot))
  {
    assert keys == keys[..|keys| - 1] + [keys[|keys| - 1]];
  }

  lemma SeenIsHeld(s: Objects, l: Layout, keys: seq<Key>, slot: Slot)
    requires forall k :: k in keys ==> k in s
    ensures SeenIn(l, keys, slot) ==> KeyIn(l, slot) in s
  {
  }

  /** Which slots a pass fills in the index. */
  predicate Fills(pass: Pass, slot: Slot) {
    match pass
    case FilePass => slot.RepoSlot? || slot.FileSlot?
    case EdgePass => slot.InRepoSlot?
    case ItemPass => slot.ItemSlot? || slot.CallSlot?
    case DeclarePass => slot.DeclaresSlot?
  }

  /** The auxiliary tables a pass needs are complete. */
  ghost predicate Prepared(pass: Pass, l: Layout, t: Tables) {
    match pass
    case FilePass => true
    case EdgePass => forall p :: FileSlot(p) in l.ids ==> l.ids[FileSlot(p)] in t.filePaths && t.filePaths[l.ids[FileSlot(p)]] == p
    case ItemPass => forall key :: ItemSlot(key) in l.ids ==> l.ids[ItemSlot(key)] in t.fileOfItem && t.fileOfItem[l.ids[ItemSlot(key)]] == key.0
    case DeclarePass => forall key :: ItemSlot(key) in l.ids ==> l.ids[ItemSlot(key)] in t.itemKeys && t.itemKeys[l.ids[ItemSlot(key)]] == key
  }

  /** The slot whose object is at a key, if the object is live code. */
  lemma Behind(s: Objects, l: Layout, k: Key) returns (slot: Option<Slot>)
    requires Laid(s, l) && k in s
    ensures slot.Some? ==> slot.value in l.ids && k == KeyIn(l, slot.value) && Live(s, k) == CodeIn(l, slot.value)
    ensures slot.None? ==> Live(s, k) == Other
    ensures forall other :: other in l.ids && k == KeyIn(l, other) ==> slot == Some(other)
    ensures slot.Some? && slot.value.FileSlot? ==> slot.value.path in l.blobs
  {
    hide Live, CodeIn;
    if Live(s, k) == Other {
      slot := None;
      forall other | other in l.ids && k == KeyIn(l, other) ensures false {
        CodeIsNotOther(l, other);
      }
    } else {
      var it :| it in l.ids && k == KeyIn(l, it);
      slot := Some(it);
    }
  }

  lemma CodeIsNotOther(l: Layout, slot: Slot)
    ensures CodeIn(l, slot) != Other
  {
  }

  /** The ends of a laid-out edge are laid out. */
  lemma EndsHeld(s: Objects, l: Layout, slot: Slot)
    requires Laid(s, l) && slot in l.ids
    ensures slot.InRepoSlot? ==> FileSlot(slot.path) in l.ids
    ensures slot.DeclaresSlot? ==> ItemSlot(slot.key) in l.ids && FileSlot(slot.key.0) in l.ids
  {
    hide Live, CodeIn;
  }

  /** The index after the entry of one slot has been put in. */
  function PutEntry(idx: Index, s: Objects, k: Key, l: Layout, slot: Slot): Index
    requires k in s
  {
    match slot
    case RepoSlot => idx.(repo := Some(k.1))
    case FileSlot(p) => idx.(files := idx.files[p := (k.1, s[k].rev, if p in l.blobs then l.blobs[p] else "")])
    case InRepoSlot(p) => idx.(inRepo := idx.inRepo[p := Entry(s, k)])
    case ItemSlot(key) => idx.(items := idx.items[key := (k.1, s[k].rev, s[k].content)])
    case DeclaresSlot(key) => idx.(declares := idx.declares[key := Entry(s, k)])
    case CallSlot(pair) => idx.(calls := idx.calls[pair := Entry(s, k)])
  }

  lemma PutHolds(idx: Index, s: Objects, k: Key, l: Layout, slot: Slot, it: Slot, seen: bool)
    requires k in s && it in l.ids && k == KeyIn(l, it) && (it.FileSlot? ==> it.path in l.blobs)
    requires seen ==> slot in l.ids && KeyIn(l, slot) in s
    requires Holds(idx, s, l, slot, seen)
    ensures Holds(PutEntry(idx, s, k, l, it), s, l, slot, seen || slot == it)
  {
  }

  /** The slot behind a key of a laid-out state, if any. */
  ghost predicate IsBehind(s: Objects, l: Layout, k: Key, it: Option<Slot>) {
    if it.Some? then it.value in l.ids && Live(s, k) == CodeIn(l, it.value) else Live(s, k) == Other
  }

  lemma FilePuts(s: Objects, l: Layout, k: Key, t: Tables, it: Option<Slot>)
    requires k in s && IsBehind(s, l, k, it)
    ensures FileStep(s, k, t).idx == if it.Some? && (it.value.RepoSlot? || it.value.FileSlot?) then PutEntry(t.idx, s, k, l, it.value) else t.idx
  {
    hide Live, RefIn;
  }

  lemma EdgePuts(s: Objects, l: Layout, k: Key, t: Tables, it: Option<Slot>)
    requires k in s && IsBehind(s, l, k, it)
    requires it.Some? && it.value.InRepoSlot? ==>
               var f := FileSlot(it.value.path); f in l.ids && l.ids[f] in t.filePaths && t.filePaths[l.ids[f]] == it.value.path
    ensures EdgeStep(s, k, t).idx == if it.Some? && it.value.InRepoSlot? then PutEntry(t.idx, s, k, l, it.value) else t.idx
  {
    hide Live, NodeId, NodeRef;
    if it.Some? && it.value.InRepoSlot? {
      NodeIdOfRef(l.ids[FileSlot(it.value.path)]);
    }
  }

  lemma ItemPuts(s: Objects, l: Layout, k: Key, t: Tables, it: Option<Slot>)
    requires k in s && IsBehind(s, l, k, it)
    requires it.Some? && it.value.ItemSlot? ==> k.1 in t.fileOfItem && t.fileOfItem[k.1] == it.value.key.0
    ensures ItemStep(s, k, t).idx == if it.Some? && (it.value.ItemSlot? || it.value.CallSlot?) then PutEntry(t.idx, s, k, l, it.value) else t.idx
  {
    hide Live, RefIn;
  }

  lemma DeclarePuts(s: Objects, l: Layout, k: Key, t: Tables, it: Option<Slot>)
    requires k in s && IsBehind(s, l, k, it)
    requires it.Some? && it.value.DeclaresSlot? ==>
               var i := ItemSlot(it.value.key); i in l.ids && l.ids[i] in t.itemKeys && t.itemKeys[l.ids[i]] == it.value.key
    ensures DeclareStep(s, k, t).idx == if it.Some? && it.value.DeclaresSlot? then PutEntry(t.idx, s, k, l, it.value) else t.idx
  {
    hide Live, NodeId, NodeRef;
    if it.Some? && it.value.DeclaresSlot? {
      NodeIdOfRef(l.ids[ItemSlot(it.value.key)]);
    }
  }

  /** What a pass does at a key: it puts in the entry of the slot behind it, when that is its business. */
  lemma StepPuts(pass: Pass, s: Objects, l: Layout, k: Key, t: Tables, it: Option<Slot>)
    requires Laid(s, l) && k in s && Prepared(pass, l, t)
    requires IsBehind(s, l, k, it) && (it.Some? ==> it.value in l.ids && k == KeyIn(l, it.value))
    ensures Step(pass, s, k, t).idx == if it.Some? && Fills(pass, it.value) then PutEntry(t.idx, s, k, l, it.value) else t.idx
  {
    if it.Some? {
      EndsHeld(s, l, it.value);
    }
    hide Laid, IsBehind, FileStep, EdgeStep, ItemStep, DeclareStep, PutEntry;
    match pass {
      case FilePass => FilePuts(s, l, k, t, it);
      case EdgePass => EdgePuts(s, l, k, t, it);
      case ItemPass => ItemPuts(s, l, k, t, it);
      case DeclarePass => DeclarePuts(s, l, k, t, it);
    }
  }

  /** A step fills the slot behind its key, if that is its business, and leaves the others. */
  lemma StepFills(pass: Pass, s: Objects, l: Layout, k: Key, t: Tables, slot: Slot, seen: bool)
    requires Laid(s, l) && k in s && Prepared(pass, l, t)
    requires seen ==> slot in l.ids && KeyIn(l, slot) in s
    requires Holds(t.idx, s, l, slot, seen)
    ensures Holds(Step(pass, s, k, t).idx, s, l, slot, seen || (Fills(pass, slot) && slot in l.ids && k == KeyIn(l, slot)))
  {
    var it := Behind(s, l, k);
    assert IsBehind(s, l, k, it);
    hide IsBehind;
    StepPuts(pass, s, l, k, t, it);
    hide Laid, Live, Holds, Step, CodeIn, Fills, PutEntry;
    if it.Some? {
      if Fills(pass, it.value) {
        PutHolds(t.idx, s, k, l, slot, it.value, seen);
      }
      assert slot in l.ids && k == KeyIn(l, slot) ==> slot == it.value;
    }
  }

  /** A pass only writes tables that it does not read. */
  lemma StepKeepsPrepared(pass: Pass, s: Objects, l: Layout, k: Key, t: Tables)
    requires k in s && Prepared(pass, l, t)
    ensures Prepared(pass, l, Step(pass, s, k, t))
  {
    hide Live, NodeId;
  }

  lemma {:induction false} PassKeepsPrepared(pass: Pass, s: Objects, l: Layout, keys: seq<Key>, t: Tables)
    requires Prepared(pass, l, t) && forall k :: k in keys ==> k in s
    ensures Prepared(pass, l, Passed(pass, s, keys, t))
  {
    hide Prepared, Step;
    if keys == [] {
    } else {
      PassKeepsPrepared(pass, s, l, keys[..|keys| - 1], t);
      StepKeepsPrepared(pass, s, l, keys[|keys| - 1], Passed(pass, s, keys[..|keys| - 1], t));
    }
  }

  /** A pass fills the slots whose objects it has come across. */
  lemma {:induction false} PassFills(pass: Pass, s: Objects, l: Layout, keys: seq<Key>, t: Tables, slot: Slot, seen: bool)
    requires Laid(s, l) && Prepared(pass, l, t) && forall k :: k in keys ==> k in s
    requires seen ==> slot in l.ids && KeyIn(l, slot) in s
    requires Holds(t.idx, s, l, slot, seen)
    ensures SeenIn(l, keys, slot) ==> KeyIn(l, slot) in s
    ensures Holds(Passed(pass, s, keys, t).idx, s, l, slot, seen || (Fills(pass, slot) && SeenIn(l, keys, slot)))
  {
    SeenIsHeld(s, l, keys, slot);
    hide Laid, Prepared, Step, Holds, Fills;
    if keys == [] {
    } else {
      var init, last := keys[..|keys| - 1], keys[|keys| - 1];
      OneMore(l, keys, slot);
      PassFills(pass, s, l, init, t, slot, seen);
      PassKeepsPrepared(pass, s, l, init, t);
      StepFills(pass, s, l, last, Passed(pass, s, init, t), slot, seen || (Fills(pass, slot) && SeenIn(l, init, slot)));
    }
  }

  // ---------------------------------------------------------------- the auxiliary tables

  lemma {:induction false} FilePrepares(s: Objects, l: Layout, keys: seq<Key>, t: Tables, p: string)
    requires Laid(s, l) && (forall k :: k in keys ==> k in s) && SeenIn(l, keys, FileSlot(p))
    ensures var paths := Passed(FilePass, s, keys, t).filePaths; l.ids[FileSlot(p)] in paths && paths[l.ids[FileSlot(p)]] == p
  {
    var init, last := keys[..|keys| - 1], keys[|keys| - 1];
    OneMore(l, keys, FileSlot(p));
    var it := Behind(s, l, last);
    var before := Passed(FilePass, s, init, t);
    FilePath(s, l, last, before, it);
    hide Laid, Live, FileStep, CodeIn;
    if !SeenIn(l, init, FileSlot(p)) {
      assert it == Some(FileSlot(p));
    } else {
      FilePrepares(s, l, init, t, p);
      assert it.Some? && it.value.FileSlot? && last.1 == l.ids[FileSlot(p)] ==> last == KeyIn(l, FileSlot(p));
    }
  }

  lemma FilePath(s: Objects, l: Layout, k: Key, t: Tables, it: Option<Slot>)
    requires k in s && IsBehind(s, l, k, it)
    ensures FileStep(s, k, t).filePaths == if it.Some? && it.value.FileSlot? then t.filePaths[k.1 := it.value.path] else t.filePaths
  {
    hide Live, RefIn;
  }

  ghost predicate ItemFiled(l: Layout, t: Tables, key: ItemKey) {
    ItemSlot(key) in l.ids && l.ids[ItemSlot(key)] in t.fileOfItem && t.fileOfItem[l.ids[ItemSlot(key)]] == key.0
  }

  lemma EdgeStepFiles(s: Objects, l: Layout, k: Key, t: Tables, key: ItemKey)
    requires Laid(s, l) && k in s && Prepared(EdgePass, l, t)
    ensures ItemFiled(l, t, key) ==> ItemFiled(l, EdgeStep(s, k, t), key)
    ensures DeclaresSlot(key) in l.ids && k == KeyIn(l, DeclaresSlot(key)) ==> ItemFiled(l, EdgeStep(s, k, t), key)
  {
    hide Laid, Live, EdgeStep, CodeIn, KindOf;
    var it := Behind(s, l, k);
    assert IsBehind(s, l, k, it);
    if it.Some? {
      EndsHeld(s, l, it.value);
      if it.value.DeclaresSlot? && ItemSlot(key) in l.ids && l.ids[ItemSlot(it.value.key)] == l.ids[ItemSlot(key)] {
        SameItem(s, l, it.value.key, key);
      }
    }
    hide IsBehind;
    EdgeFile(s, l, k, t, it);
  }

  lemma {:induction false} EdgePrepares(s: Objects, l: Layout, keys: seq<Key>, t: Tables, key: ItemKey)
    requires Laid(s, l) && (forall k :: k in keys ==> k in s) && Prepared(EdgePass, l, t) && SeenIn(l, keys, DeclaresSlot(key))
    ensures ItemFiled(l, Passed(EdgePass, s, keys, t), key)
  {
    hide Laid, EdgeStep, Prepared, ItemFiled, KeyIn, Live;
    assert keys != [];
    var init, last := keys[..|keys| - 1], keys[|keys| - 1];
    OneMore(l, keys, DeclaresSlot(key));
    PassKeepsPrepared(EdgePass, s, l, init, t);
    EdgeStepFiles(s, l, last, Passed(EdgePass, s, init, t), key);
    if SeenIn(l, init, DeclaresSlot(key)) {
      EdgePrepares(s, l, init, t, key);
    }
  }

  lemma SameItem(s: Objects, l: Layout, a: ItemKey, b: ItemKey)
    requires Laid(s, l) && ItemSlot(a) in l.ids && ItemSlot(b) in l.ids && l.ids[ItemSlot(a)] == l.ids[ItemSlot(b)]
    ensures a == b
  {
    hide Live, CodeIn;
    assert KeyIn(l, ItemSlot(a)) == KeyIn(l, ItemSlot(b));
    assert ItemSlot(a) == ItemSlot(b);
  }

  lemma EdgeFile(s: Objects, l: Layout, k: Key, t: Tables, it: Option<Slot>)
    requires k in s && IsBehind(s, l, k, it)
    requires it.Some? && it.value.DeclaresSlot? ==>
               && ItemSlot(it.value.key) in l.ids
               && var f := FileSlot(it.value.key.0); f in l.ids && l.ids[f] in t.filePaths && t.filePaths[l.ids[f]] == it.value.key.0
    ensures EdgeStep(s, k, t).fileOfItem ==
            if it.Some? && it.value.DeclaresSlot? then t.fileOfItem[l.ids[ItemSlot(it.value.key)] := it.value.key.0] else t.fileOfItem
  {
    hide Live, NodeId, NodeRef;
    if it.Some? && it.value.DeclaresSlot? {
      NodeIdOfRef(l.ids[FileSlot(it.value.key.0)]);
      NodeIdOfRef(l.ids[ItemSlot(it.value.key)]);
    }
  }

  ghost predicate ItemKeyed(l: Layout, t: Tables, key: ItemKey) {
    ItemSlot(key) in l.ids && l.ids[ItemSlot(key)] in t.itemKeys && t.itemKeys[l.ids[ItemSlot(key)]] == key
  }

  lemma ItemStepKeys(s: Objects, l: Layout, k: Key, t: Tables, key: ItemKey)
    requires Laid(s, l) && k in s && Prepared(ItemPass, l, t)
    ensures ItemKeyed(l, t, key) ==> ItemKeyed(l, ItemStep(s, k, t), key)
    ensures ItemSlot(key) in l.ids && k == KeyIn(l, ItemSlot(key)) ==> ItemKeyed(l, ItemStep(s, k, t), key)
  {
    hide Laid, Live, ItemStep, CodeIn, KindOf;
    var it := Behind(s, l, k);
    assert IsBehind(s, l, k, it);
    if it.Some? && it.value.ItemSlot? && ItemSlot(key) in l.ids && l.ids[it.value] == l.ids[ItemSlot(key)] {
      SameItem(s, l, it.value.key, key);
    }
    hide IsBehind;
    ItemTable(s, l, k, t, it);
  }

  lemma {:induction false} ItemPrepares(s: Objects, l: Layout, keys: seq<Key>, t: Tables, key: ItemKey)
    requires Laid(s, l) && (forall k :: k in keys ==> k in s) && Prepared(ItemPass, l, t) && SeenIn(l, keys, ItemSlot(key))
    ensures ItemKeyed(l, Passed(ItemPass, s, keys, t), key)
  {
    hide Laid, ItemStep, Prepared, ItemKeyed, KeyIn, Live;
    assert keys != [];
    var init, last := keys[..|keys| - 1], keys[|keys| - 1];
    OneMore(l, keys, ItemSlot(key));
    PassKeepsPrepared(ItemPass, s, l, init, t);
    ItemStepKeys(s, l, last, Passed(ItemPass, s, init, t), key);
    if SeenIn(l, init, ItemSlot(key)) {
      ItemPrepares(s, l, init, t, key);
    }
  }

  lemma ItemTable(s: Objects, l: Layout, k: Key, t: Tables, it: Option<Slot>)
    requires k in s && IsBehind(s, l, k, it)
    requires it.Some? && it.value.ItemSlot? ==> k.1 in t.fileOfItem && t.fileOfItem[k.1] == it.value.key.0
    ensures ItemStep(s, k, t).itemKeys == if it.Some? && it.value.ItemSlot? then t.itemKeys[k.1 := it.value.key] else t.itemKeys
  {
    hide Live, RefIn;
  }

  // ---------------------------------------------------------------- the index of a laid-out state

  lemma NothingYet(s: Objects, l: Layout, slot: Slot)
    ensures Holds(NO_TABLES.idx, s, l, slot, false) && Prepared(FilePass, l, NO_TABLES)
  {
  }

  lemma AllPasses(s: Objects, l: Layout, keys: seq<Key>, slot: Slot)
    requires Laid(s, l) && (forall k :: k in keys ==> k in s) && forall it :: it in l.ids ==> SeenIn(l, keys, it)
    ensures var t1 := Passed(FilePass, s, keys, NO_TABLES);
            var t2 := Passed(EdgePass, s, keys, t1);
            var t3 := Passed(ItemPass, s, keys, t2);
            (slot in l.ids ==> KeyIn(l, slot) in s) && Holds(Passed(DeclarePass, s, keys, t3).idx, s, l, slot, slot in l.ids)
  {
    hide Laid, Holds, Passed, Prepared, SeenIn, KeyIn, Live;
    NothingYet(s, l, slot);
    SeenMeansHeld(l, keys, slot);
    SeenIsHeld(s, l, keys, slot);
    var t1 := Passed(FilePass, s, keys, NO_TABLES);
    PassFills(FilePass, s, l, keys, NO_TABLES, slot, false);
    PreparedByFiles(s, l, keys);
    var t2, a := Passed(EdgePass, s, keys, t1), Fills(FilePass, slot) && SeenIn(l, keys, slot);
    PassFills(EdgePass, s, l, keys, t1, slot, a);
    PreparedByEdges(s, l, keys, t1);
    var t3, b := Passed(ItemPass, s, keys, t2), a || (Fills(EdgePass, slot) && SeenIn(l, keys, slot));
    PassFills(ItemPass, s, l, keys, t2, slot, b);
    PreparedByItems(s, l, keys, t2);
    PassFills(DeclarePass, s, l, keys, t3, slot, b || (Fills(ItemPass, slot) && SeenIn(l, keys, slot)));
  }

  lemma SeenMeansHeld(l: Layout, keys: seq<Key>, slot: Slot)
    ensures SeenIn(l, keys, slot) ==> slot in l.ids
  {
  }

  /** The four passes find exactly the objects of the layout. */
  lemma IndexAgrees(s: Objects, l: Layout)
    requires Laid(s, l)
    ensures Agrees(IndexState(s), s, l)
  {
    var keys := InOrder(s.Keys);
    forall slot | slot in l.ids ensures KeyIn(l, slot) in s && SeenIn(l, keys, slot) {
      LaidIsHeld(s, l, slot);
    }
    hide Laid, Holds, Passed, InOrder;
    forall slot ensures Holds(IndexState(s), s, l, slot, slot in l.ids) {
      AllPasses(s, l, keys, slot);
    }
  }

  lemma PreparedByFiles(s: Objects, l: Layout, keys: seq<Key>)
    requires Laid(s, l) && (forall k :: k in keys ==> k in s) && forall slot :: slot in l.ids ==> SeenIn(l, keys, slot)
    ensures Prepared(EdgePass, l, Passed(FilePass, s, keys, NO_TABLES))
  {
    hide Laid, Passed;
    forall p | FileSlot(p) in l.ids
      ensures var paths := Passed(FilePass, s, keys, NO_TABLES).filePaths; l.ids[FileSlot(p)] in paths && paths[l.ids[FileSlot(p)]] == p
    {
      FilePrepares(s, l, keys, NO_TABLES, p);
    }
  }

  lemma PreparedByEdges(s: Objects, l: Layout, keys: seq<Key>, t: Tables)
    requires Laid(s, l) && (forall k :: k in keys ==> k in s) && forall slot :: slot in l.ids ==> SeenIn(l, keys, slot)
    requires Prepared(EdgePass, l, t)
    ensures Prepared(ItemPass, l, Passed(EdgePass, s, keys, t))
  {
    hide Passed;
    forall key | ItemSlot(key) in l.ids
      ensures var files := Passed(EdgePass, s, keys, t).fileOfItem; l.ids[ItemSlot(key)] in files && files[l.ids[ItemSlot(key)]] == key.0
    {
      assert DeclaresSlot(key) in l.ids;
      EdgePrepares(s, l, keys, t, key);
    }
  }

  lemma PreparedByItems(s: Objects, l: Layout, keys: seq<Key>, t: Tables)
    requires Laid(s, l) && (forall k :: k in keys ==> k in s) && forall slot :: slot in l.ids ==> SeenIn(l, keys, slot)
    requires Prepared(ItemPass, l, t)
    ensures Prepared(DeclarePass, l, Passed(ItemPass, s, keys, t))
  {
    hide Laid, Passed;
    forall key | ItemSlot(key) in l.ids
      ensures var ks := Passed(ItemPass, s, keys, t).itemKeys; l.ids[ItemSlot(key)] in ks && ks[l.ids[ItemSlot(key)]] == key
    {
      ItemPrepares(s, l, keys, t, key);
    }
  }
}
