/**
 * The derived code graph: indexing the live code objects of a state, and the operations that turn
 * them into what a commit holds (crates/allod-graph/src/repo.rs:179-330, 402-603). The files, items
 * and calls of the commit are inputs. Minted ids are a function of what they are minted for, and
 * ordered maps are walked in an order that is given.
 */
module RepoImport {
  import opened Text
  import opened Values
  import opened Objects

  /** Path, kind and name of an item. */
  type ItemKey = (string, string, string)

  // ---------------------------------------------------------------- what an object is to the indexer

  datatype Code =
    | Repo
    | File(path: string, blob: string)
    | Item(callable: bool, kind: string, name: string)
    | InRepo(from: string, to: string)
    | Declares(from: string, to: string)
    | Calls(from: string, to: string)
    | Other

  function TypeOf(content: Value): string {
    Bare(GetStr(content, "type").GetOr(""))
  }

  function Attr(content: Value, name: string): string {
    GetStr(AttributesOf(content), name).GetOr("")
  }

  /** A stored interface is a trait of the source. */
  function TypeKind(content: Value): string {
    var stored := GetStr(AttributesOf(content), "kind").GetOr("struct");
    if stored == "interface" then "trait" else stored
  }

  function NodeCode(t: string, content: Value): Code {
    if t == "code/Repository" then Repo
    else if t == "code/SourceFile" then File(Attr(content, "path"), Attr(content, "blob"))
    else if t == "code/Function" then Item(true, "fn", Attr(content, "name"))
    else if t == "code/Type" then Item(false, TypeKind(content), Attr(content, "name"))
    else Other
  }

  function EdgeCode(t: string, content: Value): Code {
    var from, to := GetStr(content, "from").GetOr(""), GetStr(content, "to").GetOr("");
    if t == "code/in_repo" then InRepo(from, to)
    else if t == "code/declares" then Declares(from, to)
    else if t == "code/calls" then Calls(from, to)
    else Other
  }

  function CodeOf(kind: string, content: Value): Code {
    if kind == "node" then NodeCode(TypeOf(content), content)
    else if kind == "edge" then EdgeCode(TypeOf(content), content)
    else Other
  }

  function Live(s: Objects, k: Key): Code {
    if k in s && !s[k].deleted then CodeOf(k.0, s[k].content) else Other
  }

  function NodeId(reference: string): Option<string> {
    StripPrefix(reference, "node:")
  }

  // ---------------------------------------------------------------- the index

  datatype Index = Index(
    repo: Option<string>,
    files: map<string, (string, string, string)>,
    inRepo: map<string, (string, string)>,
    items: map<ItemKey, (string, string, Value)>,
    declares: map<ItemKey, (string, string)>,
    calls: map<(string, string), (string, string)>)

  /** Where the passes put what they find; later keys replace earlier ones. */
  datatype Tables = Tables(idx: Index, filePaths: map<string, string>, fileOfItem: map<string, string>, itemKeys: map<string, ItemKey>)

  const NO_TABLES := Tables(Index(None, map[], map[], map[], map[], map[]), map[], map[], map[])

  /** First pass: repository and files. */
  function FileStep(s: Objects, k: Key, t: Tables): Tables
    requires k in s
  {
    match Live(s, k)
    case Repo => t.(idx := t.idx.(repo := Some(k.1)))
    case File(path, blob) => t.(idx := t.idx.(files := t.idx.files[path := (k.1, s[k].rev, blob)]), filePaths := t.filePaths[k.1 := path])
    case _ => t
  }

  /** Second pass: which file an item is in, and where a file's edge to the repository is. */
  function EdgeStep(s: Objects, k: Key, t: Tables): Tables
    requires k in s
  {
    match Live(s, k)
    case Declares(from, to) =>
      (match (NodeId(from), NodeId(to))
       case (Some(f), Some(i)) => if f in t.filePaths then t.(fileOfItem := t.fileOfItem[i := t.filePaths[f]]) else t
       case _ => t)
    case InRepo(from, _) =>
      (match NodeId(from)
       case Some(f) => if f in t.filePaths then t.(idx := t.idx.(inRepo := t.idx.inRepo[t.filePaths[f] := (k.1, s[k].rev)])) else t
       case None => t)
    case _ => t
  }

  /** Third pass: items and calls. */
  function ItemStep(s: Objects, k: Key, t: Tables): Tables
    requires k in s
  {
    match Live(s, k)
    case Item(_, kind, name) =>
      var key := (if k.1 in t.fileOfItem then t.fileOfItem[k.1] else "", kind, name);
      t.(idx := t.idx.(items := t.idx.items[key := (k.1, s[k].rev, s[k].content)]), itemKeys := t.itemKeys[k.1 := key])
    case Calls(from, to) => t.(idx := t.idx.(calls := t.idx.calls[(from, to) := (k.1, s[k].rev)]))
    case _ => t
  }

  /** Fourth pass: the edges that declare items. */
  function DeclareStep(s: Objects, k: Key, t: Tables): Tables
    requires k in s
  {
    match Live(s, k)
    case Declares(from, to) =>
      (match NodeId(to)
       case Some(i) => if i in t.itemKeys then t.(idx := t.idx.(declares := t.idx.declares[t.itemKeys[i] := (k.1, s[k].rev)])) else t
       case None => t)
    case _ => t
  }

  datatype Pass = FilePass | EdgePass | ItemPass | DeclarePass

  function Step(pass: Pass, s: Objects, k: Key, t: Tables): Tables
    requires k in s
  {
    match pass
    case FilePass => FileStep(s, k, t)
    case EdgePass => EdgeStep(s, k, t)
    case ItemPass => ItemStep(s, k, t)
    case DeclarePass => DeclareStep(s, k, t)
  }

  /** One pass over the state. */
  function Passed(pass: Pass, s: Objects, keys: seq<Key>, t: Tables): Tables
    requires forall k :: k in keys ==> k in s
  {
    if keys == [] then t
    else Step(pass, s, keys[|keys| - 1], Passed(pass, s, keys[..|keys| - 1], t))
  }

  function IndexState(s: Objects): Index {
    var keys := InOrder(s.Keys);
    Passed(DeclarePass, s, keys, Passed(ItemPass, s, keys, Passed(EdgePass, s, keys, Passed(FilePass, s, keys, NO_TABLES)))).idx
  }

  method PassLoop(pass: Pass, s: Objects, keys: seq<Key>, t0: Tables) returns (t: Tables)
    requires forall k :: k in keys ==> k in s
    ensures t == Passed(pass, s, keys, t0)
  {
    hide Step;
    t := t0;
    for i := 0 to |keys|
      invariant t == Passed(pass, s, keys[..i], t0)
    {
      assert keys[..i + 1][..i] == keys[..i];
      t := Step(pass, s, keys[i], t);
    }
    assert keys[..|keys|] == keys;
  }

  method IndexStateLoops(s: Objects) returns (idx: Index)
    ensures idx == IndexState(s)
  {
    var keys := InOrder(s.Keys);
    var t := PassLoop(FilePass, s, keys, NO_TABLES);
    t := PassLoop(EdgePass, s, keys, t);
    t := PassLoop(ItemPass, s, keys, t);
    t := PassLoop(DeclarePass, s, keys, t);
    idx := t.idx;
  }

  // ---------------------------------------------------------------- what a commit holds

  /** An extracted item: signature and span. */
  datatype Extracted = Extracted(signature: string, span: string)

  datatype Commit = Commit(
    origin: string,
    locator: string,
    provenance: Value,
    language: string -> Option<string>,
    blobs: map<string, string>,
    items: map<ItemKey, Extracted>,
    calls: set<(ItemKey, ItemKey)>)

  function BlobRef(c: Commit, path: string): string
    requires path in c.blobs
  {
    "git:" + c.origin + "#" + c.blobs[path] + ":" + path
  }

  function FileAttributes(c: Commit, path: string): Value
    requires path in c.blobs
  {
    var m := map["path" := Str(path), "blob" := Str(BlobRef(c, path))];
    Map(match c.language(path) case None => m case Some(l) => m["language" := Str(l)])
  }

  function ItemAttributes(key: ItemKey, x: Extracted): Value {
    if key.1 == "fn" then Map(map["name" := Str(key.2), "signature" := Str(x.signature), "span" := Str(x.span)])
    else Map(map["name" := Str(key.2), "kind" := Str(if key.1 == "trait" then "interface" else key.1)])
  }

  function ItemType(key: ItemKey): string {
    if key.1 == "fn" then "code/Function@1" else "code/Type@1"
  }

  /** What an id is minted for. */
  datatype Slot =
    | RepoSlot
    | FileSlot(path: string)
    | InRepoSlot(path: string)
    | ItemSlot(key: ItemKey)
    | DeclaresSlot(key: ItemKey)
    | CallSlot(pair: (string, string))

  type Mint = Slot -> string

  // ---------------------------------------------------------------- operations

  function NodePayload(id: string, typeRef: string, attributes: Value, provenance: Value): map<string, Value> {
    map["kind" := Str("node"), "id" := Str(id), "type" := Str(typeRef), "attributes" := attributes, "provenance" := provenance]
  }

  function EdgePayload(id: string, typeRef: string, from: string, to: string, provenance: Value): map<string, Value> {
    map["kind" := Str("edge"), "id" := Str(id), "type" := Str(typeRef), "from" := Str(from), "to" := Str(to), "provenance" := provenance]
  }

  function CreateOp(payload: map<string, Value>): Value {
    Map(map["create" := Map(payload)])
  }

  function UpdateOp(payload: map<string, Value>, prior: string): Value {
    Map(map["update" := Map(payload["prior" := Str(prior)])])
  }

  function DeleteOp(kind: string, id: string, prior: string): Value {
    Map(map["delete" := Map(map["kind" := Str(kind), "id" := Str(id), "prior" := Str(prior)])])
  }

  function RepoId(idx: Index, mint: Mint): string {
    idx.repo.GetOr(mint(RepoSlot))
  }

  function FileId(idx: Index, mint: Mint, path: string): string {
    if path in idx.files then idx.files[path].0 else mint(FileSlot(path))
  }

  function ItemId(idx: Index, mint: Mint, key: ItemKey): string {
    if key in idx.items then idx.items[key].0 else mint(ItemSlot(key))
  }

  function NodeRef(id: string): string {
    "node:" + id
  }

  function RepoContent(c: Commit, id: string): map<string, Value> {
    NodePayload(id, "code/Repository@1", Map(map["name" := Str(c.origin), "origin" := Str(c.locator)]), c.provenance)
  }

  function FileContent(c: Commit, id: string, path: string): map<string, Value>
    requires path in c.blobs
  {
    NodePayload(id, "code/SourceFile@1", FileAttributes(c, path), c.provenance)
  }

  function ItemContent(c: Commit, id: string, key: ItemKey): map<string, Value>
    requires key in c.items
  {
    NodePayload(id, ItemType(key), ItemAttributes(key, c.items[key]), c.provenance)
  }

  function RepoOps(c: Commit, idx: Index, mint: Mint): seq<Value> {
    if idx.repo.Some? then [] else [CreateOp(RepoContent(c, mint(RepoSlot)))]
  }

  function FileOps(c: Commit, idx: Index, mint: Mint, path: string): seq<Value>
    requires path in c.blobs
  {
    if path in idx.files then
      var (id, rev, blob) := idx.files[path];
      if blob != BlobRef(c, path) then [UpdateOp(FileContent(c, id, path), rev)] else []
    else
      var id := mint(FileSlot(path));
      [CreateOp(FileContent(c, id, path)),
       CreateOp(EdgePayload(mint(InRepoSlot(path)), "code/in_repo@1", NodeRef(id), NodeRef(RepoId(idx, mint)), c.provenance))]
  }

  /** Provenance is not compared: an item does not change because the deriving commit moved. */
  predicate ContentDiffers(existing: Value, attributes: Value) {
    match Get(existing, "attributes")
    case Some(Map(m)) => Map(m) != attributes
    case _ => true
  }

  function ItemOps(c: Commit, idx: Index, mint: Mint, key: ItemKey): seq<Value>
    requires key in c.items
  {
    if key in idx.items then
      var (id, rev, existing) := idx.items[key];
      if ContentDiffers(existing, ItemAttributes(key, c.items[key])) then [UpdateOp(ItemContent(c, id, key), rev)] else []
    else
      var id := mint(ItemSlot(key));
      [CreateOp(ItemContent(c, id, key)),
       CreateOp(EdgePayload(mint(DeclaresSlot(key)), "code/declares@1",
                            NodeRef(if key.0 in c.blobs then FileId(idx, mint, key.0) else ""), NodeRef(id), c.provenance))]
  }

  /** The calls of the commit between items of the commit, as node references. */
  function CallRefs(c: Commit, idx: Index, mint: Mint): set<(string, string)> {
    set p | p in c.calls && p.0 in c.items && p.1 in c.items :: (NodeRef(ItemId(idx, mint, p.0)), NodeRef(ItemId(idx, mint, p.1)))
  }

  function CallOps(c: Commit, idx: Index, mint: Mint, pair: (string, string)): seq<Value> {
    if pair in idx.calls then []
    else [CreateOp(EdgePayload(mint(CallSlot(pair)), "code/calls@1", pair.0, pair.1, c.provenance))]
  }

  function GoneCallOps(c: Commit, idx: Index, mint: Mint, pair: (string, string)): seq<Value>
    requires pair in idx.calls
  {
    if pair in CallRefs(c, idx, mint) then [] else [DeleteOp("edge", idx.calls[pair].0, idx.calls[pair].1)]
  }

  function GoneItemOps(c: Commit, idx: Index, key: ItemKey): seq<Value>
    requires key in idx.items
  {
    if key in c.items then []
    else
      (if key in idx.declares then [DeleteOp("edge", idx.declares[key].0, idx.declares[key].1)] else [])
      + [DeleteOp("node", idx.items[key].0, idx.items[key].1)]
  }

  function GoneFileOps(c: Commit, idx: Index, path: string): seq<Value>
    requires path in idx.files
  {
    if path in c.blobs then []
    else
      (if path in idx.inRepo then [DeleteOp("edge", idx.inRepo[path].0, idx.inRepo[path].1)] else [])
      + [DeleteOp("node", idx.files[path].0, idx.files[path].1)]
  }

  // ---------------------------------------------------------------- the whole diff

  /** One turn of one of the program's loops. */
  datatype Task =
    | RepoTask
    | FileTask(path: string)
    | ItemTask(key: ItemKey)
    | CallTask(pair: (string, string))
    | GoneCall(pair: (string, string))
    | GoneItem(key: ItemKey)
    | GoneFile(path: string)

  function TaskOps(c: Commit, idx: Index, mint: Mint, task: Task): seq<Value> {
    match task
    case RepoTask => RepoOps(c, idx, mint)
    case FileTask(path) => if path in c.blobs then FileOps(c, idx, mint, path) else []
    case ItemTask(key) => if key in c.items then ItemOps(c, idx, mint, key) else []
    case CallTask(pair) => CallOps(c, idx, mint, pair)
    case GoneCall(pair) => if pair in idx.calls then GoneCallOps(c, idx, mint, pair) else []
    case GoneItem(key) => if key in idx.items then GoneItemOps(c, idx, key) else []
    case GoneFile(path) => if path in idx.files then GoneFileOps(c, idx, path) else []
  }

  function PlanOps(c: Commit, idx: Index, mint: Mint, plan: seq<Task>): seq<Value> {
    if plan == [] then []
    else PlanOps(c, idx, mint, plan[..|plan| - 1]) + TaskOps(c, idx, mint, plan[|plan| - 1])
  }

  /** The orders in which the program walks its ordered maps. */
  datatype Orders = Orders(
    files: seq<string>,
    items: seq<ItemKey>,
    calls: seq<(string, string)>,
    oldCalls: seq<(string, string)>,
    oldItems: seq<ItemKey>,
    oldFiles: seq<string>)

  ghost predicate Lists<T(!new)>(xs: seq<T>, s: set<T>) {
    Distinct(xs) && forall x :: x in xs <==> x in s
  }

  ghost predicate Walks(o: Orders, c: Commit, idx: Index, mint: Mint) {
    && Lists(o.files, c.blobs.Keys) && Lists(o.items, c.items.Keys) && Lists(o.calls, CallRefs(c, idx, mint))
    && Lists(o.oldCalls, idx.calls.Keys) && Lists(o.oldItems, idx.items.Keys) && Lists(o.oldFiles, idx.files.Keys)
  }

  function FileTasks(xs: seq<string>): seq<Task> {
    seq(|xs|, i requires 0 <= i < |xs| => FileTask(xs[i]))
  }

  function ItemTasks(xs: seq<ItemKey>): seq<Task> {
    seq(|xs|, i requires 0 <= i < |xs| => ItemTask(xs[i]))
  }

  function CallTasks(xs: seq<(string, string)>): seq<Task> {
    seq(|xs|, i requires 0 <= i < |xs| => CallTask(xs[i]))
  }

  function GoneCalls(xs: seq<(string, string)>): seq<Task> {
    seq(|xs|, i requires 0 <= i < |xs| => GoneCall(xs[i]))
  }

  function GoneItems(xs: seq<ItemKey>): seq<Task> {
    seq(|xs|, i requires 0 <= i < |xs| => GoneItem(xs[i]))
  }

  function GoneFiles(xs: seq<string>): seq<Task> {
    seq(|xs|, i requires 0 <= i < |xs| => GoneFile(xs[i]))
  }

  /** Writes first, removals after. */
  function Plan(o: Orders): seq<Task> {
    [RepoTask] + FileTasks(o.files) + ItemTasks(o.items) + CallTasks(o.calls)
    + GoneCalls(o.oldCalls) + GoneItems(o.oldItems) + GoneFiles(o.oldFiles)
  }

  // ---------------------------------------------------------------- the program's loops

  lemma {:induction false} PlanOpsAppend(c: Commit, idx: Index, mint: Mint, a: seq<Task>, b: seq<Task>)
    ensures PlanOps(c, idx, mint, a + b) == PlanOps(c, idx, mint, a) + PlanOps(c, idx, mint, b)
  {
    hide TaskOps;
    if b == [] {
      assert a + b == a;
    } else {
      var init, last := b[..|b| - 1], b[|b| - 1];
      assert (a + b)[..|a + b| - 1] == a + init && (a + b)[|a + b| - 1] == last;
      PlanOpsAppend(c, idx, mint, a, init);
      Append(PlanOps(c, idx, mint, a), PlanOps(c, idx, mint, init), TaskOps(c, idx, mint, last));
    }
  }

  /** One more turn of a loop that has made the operations of `tasks`. */
  lemma OneMoreTurn(c: Commit, idx: Index, mint: Mint, before: seq<Value>, tasks: seq<Task>, task: Task)
    ensures (before + PlanOps(c, idx, mint, tasks)) + TaskOps(c, idx, mint, task) == before + PlanOps(c, idx, mint, tasks + [task])
  {
    hide TaskOps;
    assert (tasks + [task])[..|tasks|] == tasks;
    Append(before, PlanOps(c, idx, mint, tasks), TaskOps(c, idx, mint, task));
  }

  lemma NoTurn(c: Commit, idx: Index, mint: Mint, before: seq<Value>)
    ensures before + PlanOps(c, idx, mint, []) == before
  {
  }

  lemma FileTurn(c: Commit, idx: Index, mint: Mint, before: seq<Value>, files: seq<string>, i: nat)
    requires i < |files| && files[i] in c.blobs
    ensures (before + PlanOps(c, idx, mint, FileTasks(files[..i]))) + FileOps(c, idx, mint, files[i])
         == before + PlanOps(c, idx, mint, FileTasks(files[..i + 1]))
  {
    hide PlanOps, FileOps;
    assert FileTasks(files[..i + 1]) == FileTasks(files[..i]) + [FileTask(files[i])];
    OneMoreTurn(c, idx, mint, before, FileTasks(files[..i]), FileTask(files[i]));
  }

  lemma ItemTurn(c: Commit, idx: Index, mint: Mint, before: seq<Value>, items: seq<ItemKey>, i: nat)
    requires i < |items| && items[i] in c.items
    ensures (before + PlanOps(c, idx, mint, ItemTasks(items[..i]))) + ItemOps(c, idx, mint, items[i])
         == before + PlanOps(c, idx, mint, ItemTasks(items[..i + 1]))
  {
    hide PlanOps, ItemOps;
    assert ItemTasks(items[..i + 1]) == ItemTasks(items[..i]) + [ItemTask(items[i])];
    OneMoreTurn(c, idx, mint, before, ItemTasks(items[..i]), ItemTask(items[i]));
  }

  lemma CallTurn(c: Commit, idx: Index, mint: Mint, before: seq<Value>, calls: seq<(string, string)>, i: nat)
    requires i < |calls|
    ensures (before + PlanOps(c, idx, mint, CallTasks(calls[..i]))) + CallOps(c, idx, mint, calls[i])
         == before + PlanOps(c, idx, mint, CallTasks(calls[..i + 1]))
  {
    hide PlanOps, CallOps;
    assert CallTasks(calls[..i + 1]) == CallTasks(calls[..i]) + [CallTask(calls[i])];
    OneMoreTurn(c, idx, mint, before, CallTasks(calls[..i]), CallTask(calls[i]));
  }

  lemma GoneCallTurn(c: Commit, idx: Index, mint: Mint, before: seq<Value>, calls: seq<(string, string)>, i: nat)
    requires i < |calls| && calls[i] in idx.calls
    ensures (before + PlanOps(c, idx, mint, GoneCalls(calls[..i]))) + GoneCallOps(c, idx, mint, calls[i])
         == before + PlanOps(c, idx, mint, GoneCalls(calls[..i + 1]))
  {
    hide PlanOps, GoneCallOps;
    assert GoneCalls(calls[..i + 1]) == GoneCalls(calls[..i]) + [GoneCall(calls[i])];
    OneMoreTurn(c, idx, mint, before, GoneCalls(calls[..i]), GoneCall(calls[i]));
  }

  lemma GoneItemTurn(c: Commit, idx: Index, mint: Mint, before: seq<Value>, items: seq<ItemKey>, i: nat)
    requires i < |items| && items[i] in idx.items
    ensures (before + PlanOps(c, idx, mint, GoneItems(items[..i]))) + GoneItemOps(c, idx, items[i])
         == before + PlanOps(c, idx, mint, GoneItems(items[..i + 1]))
  {
    hide PlanOps, GoneItemOps;
    assert GoneItems(items[..i + 1]) == GoneItems(items[..i]) + [GoneItem(items[i])];
    OneMoreTurn(c, idx, mint, before, GoneItems(items[..i]), GoneItem(items[i]));
  }

  lemma GoneFileTurn(c: Commit, idx: Index, mint: Mint, before: seq<Value>, files: seq<string>, i: nat)
    requires i < |files| && files[i] in idx.files
    ensures (before + PlanOps(c, idx, mint, GoneFiles(files[..i]))) + GoneFileOps(c, idx, files[i])
         == before + PlanOps(c, idx, mint, GoneFiles(files[..i + 1]))
  {
    hide PlanOps, GoneFileOps;
    assert GoneFiles(files[..i + 1]) == GoneFiles(files[..i]) + [GoneFile(files[i])];
    OneMoreTurn(c, idx, mint, before, GoneFiles(files[..i]), GoneFile(files[i]));
  }

  method FileLoop(c: Commit, idx: Index, mint: Mint, files: seq<string>, repoId: string, before: seq<Value>)
    returns (ops: seq<Value>, fileIds: map<string, string>)
    requires repoId == RepoId(idx, mint) && forall p :: p in files ==> p in c.blobs
    ensures ops == before + PlanOps(c, idx, mint, FileTasks(files))
    ensures forall p :: p in files <==> p in fileIds
    ensures forall p :: p in fileIds ==> fileIds[p] == FileId(idx, mint, p)
  {
    hide FileContent, EdgePayload, BlobRef, NodeRef, PlanOps, RepoId, CreateOp, UpdateOp;
    ops, fileIds := before, map[];
    NoTurn(c, idx, mint, before);
    assert FileTasks([]) == [];
    for i := 0 to |files|
      invariant ops == before + PlanOps(c, idx, mint, FileTasks(files[..i]))
      invariant forall p :: p in files[..i] <==> p in fileIds
      invariant forall p :: p in fileIds ==> fileIds[p] == FileId(idx, mint, p)
    {
      var path := files[i];
      assert files[..i + 1] == files[..i] + [path];
      FileTurn(c, idx, mint, before, files, i);
      hide FileTasks;
      var emitted: seq<Value> := [];
      if path in idx.files {
        var (id, rev, blob) := idx.files[path];
        fileIds := fileIds[path := id];
        if blob != BlobRef(c, path) {
          emitted := [UpdateOp(FileContent(c, id, path), rev)];
        }
      } else {
        var id := mint(FileSlot(path));
        fileIds := fileIds[path := id];
        emitted := [CreateOp(FileContent(c, id, path)),
                    CreateOp(EdgePayload(mint(InRepoSlot(path)), "code/in_repo@1", NodeRef(id), NodeRef(repoId), c.provenance))];
      }
      assert emitted == FileOps(c, idx, mint, path);
      ops := ops + emitted;
    }
    assert files[..|files|] == files;
  }

  method ItemLoop(c: Commit, idx: Index, mint: Mint, items: seq<ItemKey>, fileIds: map<string, string>, before: seq<Value>)
    returns (ops: seq<Value>, itemIds: map<ItemKey, string>)
    requires forall key :: key in items ==> key in c.items
    requires forall p :: p in fileIds <==> p in c.blobs
    requires forall p :: p in fileIds ==> fileIds[p] == FileId(idx, mint, p)
    ensures ops == before + PlanOps(c, idx, mint, ItemTasks(items))
    ensures forall key :: key in items <==> key in itemIds
    ensures forall key :: key in itemIds ==> itemIds[key] == ItemId(idx, mint, key)
  {
    hide ItemContent, EdgePayload, ContentDiffers, NodeRef, ItemAttributes, PlanOps, CreateOp, UpdateOp, FileId;
    ops, itemIds := before, map[];
    NoTurn(c, idx, mint, before);
    assert ItemTasks([]) == [];
    for i := 0 to |items|
      invariant ops == before + PlanOps(c, idx, mint, ItemTasks(items[..i]))
      invariant forall key :: key in items[..i] <==> key in itemIds
      invariant forall key :: key in itemIds ==> itemIds[key] == ItemId(idx, mint, key)
    {
      var key := items[i];
      assert items[..i + 1] == items[..i] + [key];
      ItemTurn(c, idx, mint, before, items, i);
      hide ItemTasks;
      var emitted: seq<Value> := [];
      if key in idx.items {
        var (id, rev, existing) := idx.items[key];
        itemIds := itemIds[key := id];
        if ContentDiffers(existing, ItemAttributes(key, c.items[key])) {
          emitted := [UpdateOp(ItemContent(c, id, key), rev)];
        }
      } else {
        var id := mint(ItemSlot(key));
        itemIds := itemIds[key := id];
        var fileId := if key.0 in fileIds then fileIds[key.0] else "";
        emitted := [CreateOp(ItemContent(c, id, key)),
                    CreateOp(EdgePayload(mint(DeclaresSlot(key)), "code/declares@1", NodeRef(fileId), NodeRef(id), c.provenance))];
      }
      assert emitted == ItemOps(c, idx, mint, key);
      ops := ops + emitted;
    }
    assert items[..|items|] == items;
  }

  /** The calls the commit wants, as references to the ids its items have. */
  method WantedCalls(c: Commit, idx: Index, mint: Mint, itemIds: map<ItemKey, string>) returns (wanted: set<(string, string)>)
    requires forall key :: key in itemIds <==> key in c.items
    requires forall key :: key in itemIds ==> itemIds[key] == ItemId(idx, mint, key)
    ensures wanted == CallRefs(c, idx, mint)
  {
    hide NodeRef, ItemId;
    wanted := set p | p in c.calls && p.0 in itemIds && p.1 in itemIds :: (NodeRef(itemIds[p.0]), NodeRef(itemIds[p.1]));
  }

  method CallLoop(c: Commit, idx: Index, mint: Mint, calls: seq<(string, string)>, before: seq<Value>) returns (ops: seq<Value>)
    ensures ops == before + PlanOps(c, idx, mint, CallTasks(calls))
  {
    hide EdgePayload, PlanOps, CreateOp;
    ops := before;
    NoTurn(c, idx, mint, before);
    assert CallTasks([]) == [];
    for i := 0 to |calls|
      invariant ops == before + PlanOps(c, idx, mint, CallTasks(calls[..i]))
    {
      CallTurn(c, idx, mint, before, calls, i);
      hide CallTasks;
      var pair, emitted := calls[i], [];
      if pair !in idx.calls {
        emitted := [CreateOp(EdgePayload(mint(CallSlot(pair)), "code/calls@1", pair.0, pair.1, c.provenance))];
      }
      assert emitted == CallOps(c, idx, mint, pair);
      ops := ops + emitted;
    }
    assert calls[..|calls|] == calls;
  }

  method GoneCallLoop(c: Commit, idx: Index, mint: Mint, oldCalls: seq<(string, string)>, wanted: set<(string, string)>, before: seq<Value>)
    returns (ops: seq<Value>)
    requires wanted == CallRefs(c, idx, mint) && forall pair :: pair in oldCalls ==> pair in idx.calls
    ensures ops == before + PlanOps(c, idx, mint, GoneCalls(oldCalls))
  {
    hide CallRefs, PlanOps, DeleteOp;
    ops := before;
    NoTurn(c, idx, mint, before);
    assert GoneCalls([]) == [];
    for i := 0 to |oldCalls|
      invariant ops == before + PlanOps(c, idx, mint, GoneCalls(oldCalls[..i]))
    {
      GoneCallTurn(c, idx, mint, before, oldCalls, i);
      hide GoneCalls;
      var pair, emitted := oldCalls[i], [];
      if pair !in wanted {
        emitted := [DeleteOp("edge", idx.calls[pair].0, idx.calls[pair].1)];
      }
      assert emitted == GoneCallOps(c, idx, mint, pair);
      ops := ops + emitted;
    }
    assert oldCalls[..|oldCalls|] == oldCalls;
  }

  method GoneItemLoop(c: Commit, idx: Index, mint: Mint, oldItems: seq<ItemKey>, before: seq<Value>) returns (ops: seq<Value>)
    requires forall key :: key in oldItems ==> key in idx.items
    ensures ops == before + PlanOps(c, idx, mint, GoneItems(oldItems))
  {
    hide PlanOps, DeleteOp;
    ops := before;
    NoTurn(c, idx, mint, before);
    assert GoneItems([]) == [];
    for i := 0 to |oldItems|
      invariant ops == before + PlanOps(c, idx, mint, GoneItems(oldItems[..i]))
    {
      GoneItemTurn(c, idx, mint, before, oldItems, i);
      hide GoneItems;
      var key, emitted := oldItems[i], [];
      if key !in c.items {
        if key in idx.declares {
          emitted := [DeleteOp("edge", idx.declares[key].0, idx.declares[key].1)];
        }
        emitted := emitted + [DeleteOp("node", idx.items[key].0, idx.items[key].1)];
      }
      assert emitted == GoneItemOps(c, idx, key);
      ops := ops + emitted;
    }
    assert oldItems[..|oldItems|] == oldItems;
  }

  method GoneFileLoop(c: Commit, idx: Index, mint: Mint, oldFiles: seq<string>, before: seq<Value>) returns (ops: seq<Value>)
    requires forall p :: p in oldFiles ==> p in idx.files
    ensures ops == before + PlanOps(c, idx, mint, GoneFiles(oldFiles))
  {
    hide PlanOps, DeleteOp;
    ops := before;
    NoTurn(c, idx, mint, before);
    assert GoneFiles([]) == [];
    for i := 0 to |oldFiles|
      invariant ops == before + PlanOps(c, idx, mint, GoneFiles(oldFiles[..i]))
    {
      GoneFileTurn(c, idx, mint, before, oldFiles, i);
      hide GoneFiles;
      var path, emitted := oldFiles[i], [];
      if path !in c.blobs {
        if path in idx.inRepo {
          emitted := [DeleteOp("edge", idx.inRepo[path].0, idx.inRepo[path].1)];
        }
        emitted := emitted + [DeleteOp("node", idx.files[path].0, idx.files[path].1)];
      }
      assert emitted == GoneFileOps(c, idx, path);
      ops := ops + emitted;
    }
    assert oldFiles[..|oldFiles|] == oldFiles;
  }

  /** The operations of one derived changeset, loop after loop. */
  method DiffCommit(c: Commit, idx: Index, mint: Mint, o: Orders) returns (ops: seq<Value>)
    requires Walks(o, c, idx, mint)
    ensures ops == PlanOps(c, idx, mint, Plan(o))
  {
    hide TaskOps, PlanOps, FileTasks, ItemTasks, CallTasks, GoneCalls, GoneItems, GoneFiles, Distinct, ItemId, FileId, RepoContent;
    var repoId;
    match idx.repo {
      case Some(id) =>
        repoId, ops := id, [];
      case None =>
        repoId := mint(RepoSlot);
        ops := [CreateOp(RepoContent(c, repoId))];
    }
    OneTask(c, idx, mint, RepoTask);
    assert ops == PlanOps(c, idx, mint, [RepoTask]) by {
      RepoTurn(c, idx, mint);
    }
    var fileIds, itemIds;
    ghost var done := [RepoTask];
    ops, fileIds := FileLoop(c, idx, mint, o.files, repoId, ops);
    PlanOpsAppend(c, idx, mint, done, FileTasks(o.files));
    done := done + FileTasks(o.files);
    ops, itemIds := ItemLoop(c, idx, mint, o.items, fileIds, ops);
    PlanOpsAppend(c, idx, mint, done, ItemTasks(o.items));
    done := done + ItemTasks(o.items);
    var wanted := WantedCalls(c, idx, mint, itemIds);
    ops := CallLoop(c, idx, mint, o.calls, ops);
    PlanOpsAppend(c, idx, mint, done, CallTasks(o.calls));
    done := done + CallTasks(o.calls);
    ops := GoneCallLoop(c, idx, mint, o.oldCalls, wanted, ops);
    PlanOpsAppend(c, idx, mint, done, GoneCalls(o.oldCalls));
    done := done + GoneCalls(o.oldCalls);
    ops := GoneItemLoop(c, idx, mint, o.oldItems, ops);
    PlanOpsAppend(c, idx, mint, done, GoneItems(o.oldItems));
    done := done + GoneItems(o.oldItems);
    ops := GoneFileLoop(c, idx, mint, o.oldFiles, ops);
    PlanOpsAppend(c, idx, mint, done, GoneFiles(o.oldFiles));
  }

  lemma OneTask(c: Commit, idx: Index, mint: Mint, task: Task)
    ensures PlanOps(c, idx, mint, [task]) == TaskOps(c, idx, mint, task)
  {
    hide TaskOps;
    assert [task][..0] == [] && PlanOps(c, idx, mint, []) + TaskOps(c, idx, mint, task) == TaskOps(c, idx, mint, task);
  }

  lemma RepoTurn(c: Commit, idx: Index, mint: Mint)
    ensures TaskOps(c, idx, mint, RepoTask) == if idx.repo.Some? then [] else [CreateOp(RepoContent(c, mint(RepoSlot)))]
  {
    hide RepoContent;
  }
}
