/**
 * What an import leaves in the state (crates/allod-graph/src/repo.rs:402-603), in terms of the commit and of
 * the objects themselves: a node for every file, function and type that says what the commit says of it, and
 * an edge for every declaration and call between those nodes, and no code objects besides.
 */
module RepoContents {
  import opened Text
  import opened Values
  import opened Hashing
  import opened Objects
  import opened Registries
  import opened Fold
  import opened RepoImport
  import opened RepoLayout
  import opened RepoTarget
  import opened RepoApply
  import opened RepoAccept
  import opened RepoExact

  // ---------------------------------------------------------------- what the state says

  ghost predicate LiveNode(s: Objects, id: string, t: string) {
    ("node", id) in s && !s[("node", id)].deleted && Bare(GetStr(s[("node", id)].content, "type").GetOr("")) == t
  }

  ghost predicate LiveEdge(s: Objects, id: string, t: string, from: string, to: string) {
    && ("edge", id) in s && !s[("edge", id)].deleted && Bare(GetStr(s[("edge", id)].content, "type").GetOr("")) == t
    && GetStr(s[("edge", id)].content, "from").GetOr("") == "node:" + from && GetStr(s[("edge", id)].content, "to").GetOr("") == "node:" + to
  }

  ghost predicate Says(s: Objects, id: string, field: string, x: string)
    requires ("node", id) in s
  {
    var content := s[("node", id)].content;
    (if Get(content, "attributes").Some? then GetStr(Get(content, "attributes").value, field).GetOr("") else "") == x
  }

  /** The file at the path, with the blob the commit has there. */
  ghost predicate IsFile(s: Objects, c: Commit, path: string, id: string) {
    && path in c.blobs && LiveNode(s, id, "code/SourceFile")
    && Says(s, id, "path", path) && Says(s, id, "blob", "git:" + c.origin + "#" + c.blobs[path] + ":" + path)
  }

  /** The function with its signature and span, or the type with its kind; a trait is stored as an interface. */
  ghost predicate IsItem(s: Objects, c: Commit, key: ItemKey, id: string) {
    && key in c.items
    && if key.1 == "fn" then
         LiveNode(s, id, "code/Function")
         && Get(s[("node", id)].content, "attributes") ==
              Some(Map(map["name" := Str(key.2), "signature" := Str(c.items[key].signature), "span" := Str(c.items[key].span)]))
       else
         LiveNode(s, id, "code/Type")
         && Get(s[("node", id)].content, "attributes") == Some(Map(map["name" := Str(key.2), "kind" := Str(if key.1 == "trait" then "interface" else key.1)]))
  }

  ghost predicate HasFile(s: Objects, c: Commit, path: string) {
    exists repo, id, e :: LiveNode(s, repo, "code/Repository") && IsFile(s, c, path, id) && LiveEdge(s, e, "code/in_repo", id, repo)
  }

  ghost predicate HasItem(s: Objects, c: Commit, key: ItemKey) {
    exists file, id, e :: IsFile(s, c, key.0, file) && IsItem(s, c, key, id) && LiveEdge(s, e, "code/declares", file, id)
  }

  ghost predicate HasCall(s: Objects, c: Commit, from: ItemKey, to: ItemKey) {
    exists a, b, e :: IsItem(s, c, from, a) && IsItem(s, c, to, b) && LiveEdge(s, e, "code/calls", a, b)
  }

  /** Every file, item and call of the commit is in the state. */
  ghost predicate Complete(s: Objects, c: Commit) {
    && (forall path :: path in c.blobs ==> HasFile(s, c, path))
    && (forall key :: key in c.items ==> HasItem(s, c, key))
    && (forall p :: p in c.calls ==> HasCall(s, c, p.0, p.1))
  }

  ghost predicate OfCommit(s: Objects, c: Commit, id: string) {
    || LiveNode(s, id, "code/Repository")
    || (exists path :: IsFile(s, c, path, id))
    || (exists key :: IsItem(s, c, key, id))
  }

  const CODE_NODES: set<string> := {"code/Repository", "code/SourceFile", "code/Function", "code/Type"}

  /** Every node of a code type in the state is one of the commit's. */
  ghost predicate NothingElse(s: Objects, c: Commit) {
    forall id, t :: LiveNode(s, id, t) && t in CODE_NODES ==> OfCommit(s, c, id)
  }

  // ---------------------------------------------------------------- reading a laid-out state

  lemma NodeTypes(t: string, content: Value)
    ensures NodeCode(t, content).Repo? ==> t == "code/Repository"
    ensures NodeCode(t, content).File? ==> t == "code/SourceFile"
    ensures NodeCode(t, content).Item? ==> t == if NodeCode(t, content).callable then "code/Function" else "code/Type"
    ensures t in CODE_NODES ==> NodeCode(t, content) != Other
  {
  }

  lemma EdgeTypes(t: string, content: Value)
    ensures EdgeCode(t, content).InRepo? ==> t == "code/in_repo"
    ensures EdgeCode(t, content).Declares? ==> t == "code/declares"
    ensures EdgeCode(t, content).Calls? ==> t == "code/calls"
  {
  }

  lemma LiveReads(s: Objects, k: Key)
    requires Live(s, k) != Other
    ensures k in s && !s[k].deleted
    ensures Live(s, k).Repo? || Live(s, k).File? || Live(s, k).Item? ==> k.0 == "node" && Live(s, k) == NodeCode(TypeOf(s[k].content), s[k].content)
    ensures Live(s, k).InRepo? || Live(s, k).Declares? || Live(s, k).Calls? ==> k.0 == "edge" && Live(s, k) == EdgeCode(TypeOf(s[k].content), s[k].content)
  {
  }

  lemma RepoReads(s: Objects, id: string)
    requires Live(s, ("node", id)) == Repo
    ensures LiveNode(s, id, "code/Repository")
  {
    LiveReads(s, ("node", id));
    NodeTypes(TypeOf(s[("node", id)].content), s[("node", id)].content);
    hide Live, NodeCode, Bare;
  }

  lemma FileReads(s: Objects, id: string, path: string, blob: string)
    requires Live(s, ("node", id)) == File(path, blob)
    ensures LiveNode(s, id, "code/SourceFile") && Says(s, id, "path", path) && Says(s, id, "blob", blob)
  {
    LiveReads(s, ("node", id));
    var content := s[("node", id)].content;
    NodeTypes(TypeOf(content), content);
    hide Live, Bare;
    assert NodeCode(TypeOf(content), content) == File(Attr(content, "path"), Attr(content, "blob"));
    hide NodeCode;
  }

  lemma ItemReads(s: Objects, id: string, callable: bool, kind: string, name: string)
    requires Live(s, ("node", id)) == Item(callable, kind, name)
    ensures LiveNode(s, id, if callable then "code/Function" else "code/Type")
  {
    LiveReads(s, ("node", id));
    NodeTypes(TypeOf(s[("node", id)].content), s[("node", id)].content);
    hide Live, NodeCode, Bare;
  }

  lemma EdgeReads(s: Objects, id: string, from: string, to: string, t: string)
    requires Live(s, ("edge", id)) == (if t == "code/in_repo" then InRepo(NodeRef(from), NodeRef(to))
                                      else if t == "code/declares" then Declares(NodeRef(from), NodeRef(to))
                                      else Calls(NodeRef(from), NodeRef(to)))
    requires t in {"code/in_repo", "code/declares", "code/calls"}
    ensures LiveEdge(s, id, t, from, to)
  {
    LiveReads(s, ("edge", id));
    var content := s[("edge", id)].content;
    EdgeTypes(TypeOf(content), content);
    hide Live, Bare;
    assert EdgeCode(TypeOf(content), content).from == GetStr(content, "from").GetOr("") && EdgeCode(TypeOf(content), content).to == GetStr(content, "to").GetOr("");
    hide EdgeCode;
  }

  /** The state is laid out, and its index is the commit. */
  ghost predicate Settled(s: Objects, l: Layout, c: Commit) {
    Laid(s, l) && Exact(c, IndexState(s)) && Sane(c)
  }

  lemma FileThere(s: Objects, l: Layout, c: Commit, path: string)
    requires Settled(s, l, c)
    ensures path in c.blobs <==> FileSlot(path) in l.ids
    ensures path in c.blobs ==> InRepoSlot(path) in l.ids && RepoSlot in l.ids && IsFile(s, c, path, l.ids[FileSlot(path)])
  {
    IndexAgrees(s, l);
    var idx := IndexState(s);
    assert Holds(idx, s, l, FileSlot(path), FileSlot(path) in l.ids);
    assert path in c.blobs <==> path in idx.files;
    if path in c.blobs {
      LaidIsHeld(s, l, FileSlot(path));
      var id := l.ids[FileSlot(path)];
      assert idx.files[path].2 == BlobRef(c, path) == l.blobs[path];
      assert Live(s, ("node", id)) == File(path, l.blobs[path]);
      hide Live, IndexState, Laid, Exact, Holds, LiveNode, Says;
      FileReads(s, id, path, l.blobs[path]);
    }
  }

  lemma SettledParts(s: Objects, l: Layout, c: Commit)
    requires Settled(s, l, c)
    ensures Laid(s, l) && Attached(l) && Agrees(IndexState(s), s, l) && Sane(c)
    ensures FilesMatch(c, IndexState(s)) && ItemsMatch(c, IndexState(s)) && CallsMatch(c, IndexState(s))
  {
    hide IndexState, Attached, Apart, Live, Sane, FilesMatch, ItemsMatch, CallsMatch, Agrees;
    IndexAgrees(s, l);
  }

  lemma ItemSlotReads(idx: Index, s: Objects, l: Layout, key: ItemKey)
    requires Agrees(idx, s, l)
    ensures key in idx.items <==> ItemSlot(key) in l.ids
    ensures key in idx.items ==>
              ("node", l.ids[ItemSlot(key)]) in s && idx.items[key].0 == l.ids[ItemSlot(key)] && idx.items[key].2 == s[("node", l.ids[ItemSlot(key)])].content
  {
    assert Holds(idx, s, l, ItemSlot(key), ItemSlot(key) in l.ids);
    if ItemSlot(key) in l.ids {
      assert KeyIn(l, ItemSlot(key)) == ("node", l.ids[ItemSlot(key)]);
    }
  }

  lemma ItemCode(s: Objects, l: Layout, key: ItemKey)
    requires Laid(s, l) && ItemSlot(key) in l.ids
    ensures Live(s, ("node", l.ids[ItemSlot(key)])) == Item(key.1 == "fn", key.1, key.2)
  {
    hide Live;
    LaidIsHeld(s, l, ItemSlot(key));
    hide Laid;
  }

  lemma ItemHeld(s: Objects, l: Layout, c: Commit, key: ItemKey)
    requires Settled(s, l, c)
    ensures key in c.items <==> ItemSlot(key) in l.ids
    ensures key in c.items ==>
              && DeclaresSlot(key) in l.ids && key in IndexState(s).items && IndexState(s).items[key].0 == l.ids[ItemSlot(key)]
              && ("node", l.ids[ItemSlot(key)]) in s && Live(s, ("node", l.ids[ItemSlot(key)])) == Item(key.1 == "fn", key.1, key.2)
              && Get(s[("node", l.ids[ItemSlot(key)])].content, "attributes") == Some(ItemAttributes(key, c.items[key]))
  {
    hide Settled, IndexState, ItemAttributes, Live, FilesMatch, CallsMatch, Sane, Agrees, Laid;
    SettledParts(s, l, c);
    ItemSlotReads(IndexState(s), s, l, key);
    if key in c.items {
      ItemCode(s, l, key);
    }
  }

  lemma ItemThere(s: Objects, l: Layout, c: Commit, key: ItemKey)
    requires Settled(s, l, c)
    ensures key in c.items <==> ItemSlot(key) in l.ids
    ensures key in c.items ==> DeclaresSlot(key) in l.ids && IsItem(s, c, key, l.ids[ItemSlot(key)])
  {
    hide Settled, Live, IndexState, LiveNode;
    ItemHeld(s, l, c, key);
    if key in c.items {
      ItemReads(s, l.ids[ItemSlot(key)], key.1 == "fn", key.1, key.2);
    }
  }

  lemma FilesHeld(s: Objects, l: Layout, c: Commit, path: string)
    requires Settled(s, l, c) && path in c.blobs
    ensures HasFile(s, c, path)
  {
    FileThere(s, l, c, path);
    LaidIsHeld(s, l, InRepoSlot(path));
    LaidIsHeld(s, l, RepoSlot);
    var repo, id, e := l.ids[RepoSlot], l.ids[FileSlot(path)], l.ids[InRepoSlot(path)];
    assert Live(s, ("edge", e)) == InRepo(NodeRef(id), NodeRef(repo)) && Live(s, ("node", repo)) == Repo;
    hide Live, Laid, Exact, IsFile, LiveEdge, LiveNode;
    EdgeReads(s, e, id, repo, "code/in_repo");
    RepoReads(s, repo);
  }

  lemma ItemsHeld(s: Objects, l: Layout, c: Commit, key: ItemKey)
    requires Settled(s, l, c) && key in c.items
    ensures HasItem(s, c, key)
  {
    DeclaresHeld(s, l, c, key);
    hide Settled, IsFile, IsItem, LiveEdge, Live;
    ItemThere(s, l, c, key);
    FileThere(s, l, c, key.0);
    var file, id, e := l.ids[FileSlot(key.0)], l.ids[ItemSlot(key)], l.ids[DeclaresSlot(key)];
    EdgeReads(s, e, file, id, "code/declares");
  }

  lemma DeclaresHeld(s: Objects, l: Layout, c: Commit, key: ItemKey)
    requires Settled(s, l, c) && key in c.items
    ensures key.0 in c.blobs && FileSlot(key.0) in l.ids && ItemSlot(key) in l.ids && DeclaresSlot(key) in l.ids
    ensures Live(s, ("edge", l.ids[DeclaresSlot(key)])) == Declares(NodeRef(l.ids[FileSlot(key.0)]), NodeRef(l.ids[ItemSlot(key)]))
  {
    hide Settled, IndexState, Live, FilesMatch, ItemsMatch, CallsMatch, Agrees, Laid, IsItem, IsFile, Attached;
    SettledParts(s, l, c);
    ItemThere(s, l, c, key);
    FileThere(s, l, c, key.0);
    DeclaresCode(s, l, key);
  }

  lemma DeclaresCode(s: Objects, l: Layout, key: ItemKey)
    requires Laid(s, l) && DeclaresSlot(key) in l.ids && FileSlot(key.0) in l.ids && ItemSlot(key) in l.ids
    ensures Live(s, ("edge", l.ids[DeclaresSlot(key)])) == Declares(NodeRef(l.ids[FileSlot(key.0)]), NodeRef(l.ids[ItemSlot(key)]))
  {
    hide Live;
    LaidIsHeld(s, l, DeclaresSlot(key));
    hide Laid;
  }

  lemma CallCode(s: Objects, l: Layout, pair: (string, string))
    requires Laid(s, l) && CallSlot(pair) in l.ids
    ensures Live(s, ("edge", l.ids[CallSlot(pair)])) == Calls(pair.0, pair.1)
  {
    hide Live;
    LaidIsHeld(s, l, CallSlot(pair));
    hide Laid;
  }

  lemma CallHeld(s: Objects, l: Layout, c: Commit, p: (ItemKey, ItemKey)) returns (pair: (string, string))
    requires Settled(s, l, c) && p in c.calls
    ensures p.0 in c.items && p.1 in c.items && ItemSlot(p.0) in l.ids && ItemSlot(p.1) in l.ids
    ensures pair == (NodeRef(l.ids[ItemSlot(p.0)]), NodeRef(l.ids[ItemSlot(p.1)])) && CallSlot(pair) in l.ids
    ensures Live(s, ("edge", l.ids[CallSlot(pair)])) == Calls(pair.0, pair.1)
  {
    hide Settled, IndexState, Live, FilesMatch, ItemsMatch, Agrees, Laid, Attached, NodeRef;
    SettledParts(s, l, c);
    ItemHeld(s, l, c, p.0);
    ItemHeld(s, l, c, p.1);
    pair := (NodeRef(l.ids[ItemSlot(p.0)]), NodeRef(l.ids[ItemSlot(p.1)]));
    assert pair in IndexState(s).calls;
    CallSlotReads(IndexState(s), s, l, pair);
    CallCode(s, l, pair);
  }

  lemma CallSlotReads(idx: Index, s: Objects, l: Layout, pair: (string, string))
    requires Agrees(idx, s, l)
    ensures pair in idx.calls <==> CallSlot(pair) in l.ids
  {
    assert Holds(idx, s, l, CallSlot(pair), CallSlot(pair) in l.ids);
  }

  lemma CallsHeld(s: Objects, l: Layout, c: Commit, p: (ItemKey, ItemKey))
    requires Settled(s, l, c) && p in c.calls
    ensures HasCall(s, c, p.0, p.1)
  {
    hide Settled, IsItem, LiveEdge, Live;
    var pair := CallHeld(s, l, c, p);
    ItemThere(s, l, c, p.0);
    ItemThere(s, l, c, p.1);
    EdgeReads(s, l.ids[CallSlot(pair)], l.ids[ItemSlot(p.0)], l.ids[ItemSlot(p.1)], "code/calls");
  }

  lemma NodesAreCommits(s: Objects, l: Layout, c: Commit, id: string, t: string)
    requires Settled(s, l, c) && LiveNode(s, id, t) && t in CODE_NODES
    ensures OfCommit(s, c, id)
  {
    NodeTypes(t, s[("node", id)].content);
    var slot := SlotOf(s, l, ("node", id));
    match slot {
      case RepoSlot => RepoReads(s, id);
      case FileSlot(path) => FileThere(s, l, c, path);
      case ItemSlot(key) => ItemThere(s, l, c, key);
      case _ =>
    }
    hide Settled, LiveNode, IsFile, IsItem;
  }

  /** A laid-out state whose index is the commit says of each object what the commit says, and has no other code nodes. */
  lemma SettledHolds(s: Objects, l: Layout, c: Commit)
    requires Settled(s, l, c)
    ensures Complete(s, c) && NothingElse(s, c)
  {
    hide Settled, HasFile, HasItem, HasCall, LiveNode, OfCommit;
    forall path | path in c.blobs ensures HasFile(s, c, path) {
      FilesHeld(s, l, c, path);
    }
    forall key | key in c.items ensures HasItem(s, c, key) {
      ItemsHeld(s, l, c, key);
    }
    forall p | p in c.calls ensures HasCall(s, c, p.0, p.1) {
      CallsHeld(s, l, c, p);
    }
    forall id, t | LiveNode(s, id, t) && t in CODE_NODES ensures OfCommit(s, c, id) {
      NodesAreCommits(s, l, c, id, t);
    }
  }

  /** A call in the state joins two items of the commit, one of which calls the other. */
  lemma CallsAreCommits(s: Objects, l: Layout, c: Commit, e: string, from: string, to: string) returns (p: (ItemKey, ItemKey))
    requires Settled(s, l, c) && LiveEdge(s, e, "code/calls", from, to)
    ensures p in c.calls && IsItem(s, c, p.0, from) && IsItem(s, c, p.1, to)
  {
    var pair := CallOf(s, l, e, from, to);
    hide LiveEdge, Settled, IndexState, FilesMatch, ItemsMatch, Agrees, Laid, Attached, IsItem, NodeRef;
    SettledParts(s, l, c);
    CallSlotReads(IndexState(s), s, l, pair);
    p :| p in c.calls && p.0 in IndexState(s).items && p.1 in IndexState(s).items
         && pair == (NodeRef(IndexState(s).items[p.0].0), NodeRef(IndexState(s).items[p.1].0));
    ItemHeld(s, l, c, p.0);
    ItemHeld(s, l, c, p.1);
    ItemThere(s, l, c, p.0);
    ItemThere(s, l, c, p.1);
    SameRef(from, l.ids[ItemSlot(p.0)]);
    SameRef(to, l.ids[ItemSlot(p.1)]);
  }

  lemma SameRef(a: string, b: string)
    requires NodeRef(a) == NodeRef(b)
    ensures a == b
  {
    assert a == NodeRef(a)[5..] && b == NodeRef(b)[5..];
  }

  lemma CallOf(s: Objects, l: Layout, e: string, from: string, to: string) returns (pair: (string, string))
    requires Laid(s, l) && LiveEdge(s, e, "code/calls", from, to)
    ensures pair == (NodeRef(from), NodeRef(to)) && CallSlot(pair) in l.ids
  {
    pair := (NodeRef(from), NodeRef(to));
    var content := s[("edge", e)].content;
    CallsType(content);
    assert Live(s, ("edge", e)) == Calls(pair.0, pair.1);
    hide Live, Bare;
    var slot := SlotOf(s, l, ("edge", e));
    assert CodeIn(l, slot) == Calls(pair.0, pair.1);
    hide Laid;
  }

  lemma CallsType(content: Value)
    requires TypeOf(content) == "code/calls"
    ensures CodeOf("edge", content) == Calls(GetStr(content, "from").GetOr(""), GetStr(content, "to").GetOr(""))
  {
    hide TypeOf, GetStr;
    assert |"code/calls"| == 10 && |"code/in_repo"| == 12 && |"code/declares"| == 13 && "edge"[0] == 'e' && "node"[0] == 'n';
  }

  // ---------------------------------------------------------------- an accepted import

  /** An accepted import leaves a state that holds the commit. */
  lemma ImportHolds(sha: Sha, reg: Registry, j: Job, o: Orders, cs: Value)
    requires Ready(j) && AcceptsCode(reg, j.c) && Walks(o, j.c, IndexState(j.s), j.mint) && NoDangling(j.s)
    requires CheckHeader(sha, cs) == Ok(PlanOps(j.c, IndexState(j.s), j.mint, Plan(o)))
    ensures Apply(sha, reg, j.s, cs).Ok? ==> Complete(Apply(sha, reg, j.s, cs).value, j.c) && NothingElse(Apply(sha, reg, j.s, cs).value, j.c)
  {
    assert Sane(j.c) && Laid(j.s, j.l);
    hide *;
    ImportIsExact(sha, reg, j, o, cs);
    if Apply(sha, reg, j.s, cs).Ok? {
      ImportSettles(Imported(sha, j, o), Target(j), j.c);
      SettledHolds(Imported(sha, j, o), Target(j), j.c);
    }
  }

  lemma ImportSettles(s: Objects, l: Layout, c: Commit)
    requires Laid(s, l) && Exact(c, IndexState(s)) && Sane(c)
    ensures Settled(s, l, c)
  {
    hide Laid, Exact, IndexState, Sane;
  }

  // ---------------------------------------------------------------- what is created

  /** The node of a new file: its path, its blob, and its language when there is one. */
  ghost function NewFile(c: Commit, id: string, path: string): Value
    requires path in c.blobs
  {
    var m := map["path" := Str(path), "blob" := Str("git:" + c.origin + "#" + c.blobs[path] + ":" + path)];
    var attributes := if c.language(path).Some? then Map(m["language" := Str(c.language(path).value)]) else Map(m);
    Map(map["kind" := Str("node"), "id" := Str(id), "type" := Str("code/SourceFile@1"), "attributes" := attributes, "provenance" := c.provenance])
  }

  ghost function NewRepository(c: Commit, id: string): Value {
    Map(map["kind" := Str("node"), "id" := Str(id), "type" := Str("code/Repository@1"),
            "attributes" := Map(map["name" := Str(c.origin), "origin" := Str(c.locator)]), "provenance" := c.provenance])
  }

  lemma {:induction false} TaskInPlan(c: Commit, idx: Index, mint: Mint, plan: seq<Task>, task: Task, op: Value)
    requires task in plan && op in TaskOps(c, idx, mint, task)
    ensures op in PlanOps(c, idx, mint, plan)
  {
    hide TaskOps;
    var init, last := plan[..|plan| - 1], plan[|plan| - 1];
    assert plan == init + [last];
    if task != last {
      TaskInPlan(c, idx, mint, init, task, op);
    }
  }

  lemma PlanHas(o: Orders, path: string)
    ensures RepoTask in Plan(o)
    ensures path in o.files ==> FileTask(path) in Plan(o)
  {
    assert Plan(o)[0] == RepoTask;
    if path in o.files {
      var i :| 0 <= i < |o.files| && o.files[i] == path;
      assert FileTasks(o.files)[i] == FileTask(path) && FileTask(path) in FileTasks(o.files);
    }
  }

  /** A graph without the repository gets it, and one without the file gets that. */
  lemma NewNodes(c: Commit, idx: Index, mint: Mint, o: Orders, path: string)
    requires Walks(o, c, idx, mint)
    ensures idx.repo.None? ==> Map(map["create" := NewRepository(c, mint(RepoSlot))]) in PlanOps(c, idx, mint, Plan(o))
    ensures path in c.blobs && path !in idx.files ==> Map(map["create" := NewFile(c, mint(FileSlot(path)), path)]) in PlanOps(c, idx, mint, Plan(o))
  {
    assert forall p :: p in o.files <==> p in c.blobs;
    PlanHas(o, path);
    hide Walks, Plan;
    if idx.repo.None? {
      RepositoryCreated(c, idx, mint);
      TaskInPlan(c, idx, mint, Plan(o), RepoTask, Map(map["create" := NewRepository(c, mint(RepoSlot))]));
    }
    if path in c.blobs && path !in idx.files {
      FileCreated(c, idx, mint, path);
      TaskInPlan(c, idx, mint, Plan(o), FileTask(path), Map(map["create" := NewFile(c, mint(FileSlot(path)), path)]));
    }
  }

  lemma RepositoryCreated(c: Commit, idx: Index, mint: Mint)
    requires idx.repo.None?
    ensures Map(map["create" := NewRepository(c, mint(RepoSlot))]) in TaskOps(c, idx, mint, RepoTask)
  {
    var id := mint(RepoSlot);
    assert CreateOp(RepoContent(c, id)) == Map(map["create" := NewRepository(c, id)]);
    assert TaskOps(c, idx, mint, RepoTask)[0] == CreateOp(RepoContent(c, id));
  }

  lemma FileCreated(c: Commit, idx: Index, mint: Mint, path: string)
    requires path in c.blobs && path !in idx.files
    ensures Map(map["create" := NewFile(c, mint(FileSlot(path)), path)]) in TaskOps(c, idx, mint, FileTask(path))
  {
    var id := mint(FileSlot(path));
    assert BlobRef(c, path) == "git:" + c.origin + "#" + c.blobs[path] + ":" + path;
    hide BlobRef, EdgePayload;
    assert CreateOp(FileContent(c, id, path)) == Map(map["create" := NewFile(c, id, path)]);
    assert TaskOps(c, idx, mint, FileTask(path))[0] == CreateOp(FileContent(c, id, path));
  }
}
