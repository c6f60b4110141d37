/**
 * After an import the code graph is exactly the commit's: the operations are accepted, the index of
 * the new state holds what the commit holds, and importing the same contents again emits nothing
 * (crates/allod-graph/src/repo.rs:179-302, 402-603).
 */
module RepoExact {
  import opened Text
  import opened Values
  import opened Hashing
  import opened Model
  import opened Objects
  import opened Registries
  import opened Fold
  import opened RepoImport
  import opened RepoLayout
  import opened RepoTarget
  import opened RepoApply
  import opened RepoAccept
  import opened RepoRules
  import opened Rules
  import opened RepoSchema

  // ---------------------------------------------------------------- the slots of the plan

  lemma {:induction false} PlanMembers(j: Job, plan: seq<Task>, slot: Slot)
    ensures slot in PlanSlots(j, plan) <==> exists task :: task in plan && slot in TaskSlots(j, task)
  {
    hide TaskSlots;
    if plan == [] {
    } else {
      var init, last := plan[..|plan| - 1], plan[|plan| - 1];
      assert plan == init + [last];
      assert last in plan;
      PlanMembers(j, init, slot);
    }
  }

  lemma SlotsOfTask(j: Job, task: Task)
    ensures Distinct(TaskSlots(j, task)) && |TaskSlots(j, task)| <= 2
  {
    hide Refs;
  }

  /** No two turns of the loops share a slot. */
  lemma SharedSlot(j: Job, idx: Index, a: Task, b: Task, slot: Slot)
    requires Proper(j, idx, a) && Proper(j, idx, b)
    requires slot in TaskSlots(j, a) && slot in TaskSlots(j, b)
    ensures a == b
  {
    hide Refs;
  }

  lemma {:induction false} PlanDistinct(j: Job, idx: Index, plan: seq<Task>)
    requires Distinct(plan) && forall task :: task in plan ==> Proper(j, idx, task)
    ensures Distinct(PlanSlots(j, plan))
  {
    hide Proper, TaskSlots;
    if plan == [] {
    } else {
      var init, last := plan[..|plan| - 1], plan[|plan| - 1];
      assert plan == init + [last];
      PlanDistinct(j, idx, init);
      SlotsOfTask(j, last);
      assert last !in init by {
        assert forall i :: 0 <= i < |init| ==> plan[i] == init[i] && plan[i] != plan[|init|];
      }
      forall slot | slot in TaskSlots(j, last) ensures slot !in PlanSlots(j, init) {
        PlanMembers(j, init, slot);
        if slot in PlanSlots(j, init) {
          var task :| task in init && slot in TaskSlots(j, task);
          SharedSlot(j, idx, task, last, slot);
        }
      }
      DistinctJoin(PlanSlots(j, init), TaskSlots(j, last));
    }
  }

  /** Turns that write edges come after the turns that write their ends. */
  ghost predicate EndsFirst(j: Job, plan: seq<Task>) {
    forall n :: 0 <= n < |plan| ==>
      && (plan[n].FileTask? || plan[n].ItemTask? || plan[n].CallTask? ==> RepoTask in plan[..n])
      && (plan[n].ItemTask? || plan[n].CallTask? ==> forall p :: p in j.c.blobs ==> FileTask(p) in plan[..n])
      && (plan[n].CallTask? ==> forall key :: key in j.c.items ==> ItemTask(key) in plan[..n])
  }

  lemma InPlan(j: Job, plan: seq<Task>, task: Task, slot: Slot)
    requires task in plan && slot in TaskSlots(j, task)
    ensures slot in PlanSlots(j, plan)
  {
    hide TaskSlots;
    PlanMembers(j, plan, slot);
  }

  lemma PairReady(j: Job, slots: seq<Slot>, a: Slot, b: Slot)
    requires EndsReady(j, slots, a) && EndsReady(j, slots + [a], b)
    ensures forall i :: 0 <= i < 2 ==> EndsReady(j, slots + [a, b][..i], [a, b][i])
  {
    hide EndsReady;
    assert [a, b][..0] == [] && [a, b][..1] == [a] && slots + [] == slots;
  }

  lemma TaskReady(j: Job, idx: Index, before: seq<Task>, task: Task)
    requires Sane(j.c) && Proper(j, idx, task)
    requires task.FileTask? || task.ItemTask? || task.CallTask? ==> RepoTask in before
    requires task.ItemTask? || task.CallTask? ==> forall p :: p in j.c.blobs ==> FileTask(p) in before
    requires task.CallTask? ==> forall key :: key in j.c.items ==> ItemTask(key) in before
    ensures var slots, own := PlanSlots(j, before), TaskSlots(j, task);
            forall i :: 0 <= i < |own| ==> EndsReady(j, slots + own[..i], own[i])
  {
    var slots, own := PlanSlots(j, before), TaskSlots(j, task);
    hide Refs, PlanSlots, ChangeFor;
    match task {
      case FileTask(p) =>
        if p in j.c.blobs {
          InPlan(j, before, RepoTask, RepoSlot);
          PairReady(j, slots, FileSlot(p), InRepoSlot(p));
        }
      case ItemTask(key) =>
        if key in j.c.items {
          InPlan(j, before, FileTask(key.0), FileSlot(key.0));
          PairReady(j, slots, ItemSlot(key), DeclaresSlot(key));
        }
      case CallTask(pair) =>
        forall key | key in j.c.items ensures ItemSlot(key) in slots {
          InPlan(j, before, ItemTask(key), ItemSlot(key));
        }
        assert own[..0] == [] && slots + [] == slots;
      case GoneItem(key) =>
        if key !in j.c.items {
          PairReady(j, slots, DeclaresSlot(key), ItemSlot(key));
        }
      case GoneFile(p) =>
        if p !in j.c.blobs {
          PairReady(j, slots, InRepoSlot(p), FileSlot(p));
        }
      case _ =>
    }
  }

  ghost predicate EndsInOrder(j: Job, slots: seq<Slot>) {
    forall i :: 0 <= i < |slots| ==> EndsReady(j, slots[..i], slots[i])
  }

  lemma JoinInOrder(j: Job, a: seq<Slot>, b: seq<Slot>)
    requires EndsInOrder(j, a) && forall i :: 0 <= i < |b| ==> EndsReady(j, a + b[..i], b[i])
    ensures EndsInOrder(j, a + b)
  {
    hide EndsReady;
    forall i | 0 <= i < |a + b| ensures EndsReady(j, (a + b)[..i], (a + b)[i]) {
      if i < |a| {
        assert (a + b)[..i] == a[..i];
      } else {
        assert (a + b)[..i] == a + b[..i - |a|] && (a + b)[i] == b[i - |a|];
      }
    }
  }

  lemma {:induction false} PlanInOrder(j: Job, idx: Index, plan: seq<Task>)
    requires Sane(j.c) && EndsFirst(j, plan) && forall task :: task in plan ==> Proper(j, idx, task)
    ensures EndsInOrder(j, PlanSlots(j, plan))
  {
    hide Sane, Proper, TaskSlots, EndsReady;
    if plan == [] {
    } else {
      var n := |plan| - 1;
      assert plan == plan[..n] + [plan[n]];
      EndsFirstInit(j, plan);
      TaskReady(j, idx, plan[..n], plan[n]);
      hide EndsFirst, EndsInOrder;
      PlanInOrder(j, idx, plan[..n]);
      JoinInOrder(j, PlanSlots(j, plan[..n]), TaskSlots(j, plan[n]));
    }
  }

  lemma PlanInSequence(j: Job, idx: Index, plan: seq<Task>)
    requires Sane(j.c) && Distinct(plan) && EndsFirst(j, plan) && forall task :: task in plan ==> Proper(j, idx, task)
    ensures InSequence(j, PlanSlots(j, plan))
  {
    PlanDistinct(j, idx, plan);
    PlanInOrder(j, idx, plan);
    hide PlanSlots, EndsReady;
  }

  lemma EndsFirstInit(j: Job, plan: seq<Task>)
    requires EndsFirst(j, plan) && plan != []
    ensures EndsFirst(j, plan[..|plan| - 1])
  {
    var init := plan[..|plan| - 1];
    forall n | 0 <= n < |init| ensures init[n] == plan[n] && init[..n] == plan[..n] {
    }
  }

  // ---------------------------------------------------------------- the program's plan

  lemma FileTasksAre(xs: seq<string>)
    requires Distinct(xs)
    ensures Distinct(FileTasks(xs)) && forall t :: t in FileTasks(xs) <==> t.FileTask? && t.path in xs
  {
    forall x | x in xs ensures FileTask(x) in FileTasks(xs) {
      var i :| 0 <= i < |xs| && xs[i] == x;
      assert FileTasks(xs)[i] == FileTask(x);
    }
  }

  lemma ItemTasksAre(xs: seq<ItemKey>)
    requires Distinct(xs)
    ensures Distinct(ItemTasks(xs)) && forall t :: t in ItemTasks(xs) <==> t.ItemTask? && t.key in xs
  {
    forall x | x in xs ensures ItemTask(x) in ItemTasks(xs) {
      var i :| 0 <= i < |xs| && xs[i] == x;
      assert ItemTasks(xs)[i] == ItemTask(x);
    }
  }

  lemma CallTasksAre(xs: seq<(string, string)>)
    requires Distinct(xs)
    ensures Distinct(CallTasks(xs)) && forall t :: t in CallTasks(xs) <==> t.CallTask? && t.pair in xs
  {
    forall x | x in xs ensures CallTask(x) in CallTasks(xs) {
      var i :| 0 <= i < |xs| && xs[i] == x;
      assert CallTasks(xs)[i] == CallTask(x);
    }
  }

  lemma GoneCallsAre(xs: seq<(string, string)>)
    requires Distinct(xs)
    ensures Distinct(GoneCalls(xs)) && forall t :: t in GoneCalls(xs) <==> t.GoneCall? && t.pair in xs
  {
    forall x | x in xs ensures GoneCall(x) in GoneCalls(xs) {
      var i :| 0 <= i < |xs| && xs[i] == x;
      assert GoneCalls(xs)[i] == GoneCall(x);
    }
  }

  lemma GoneItemsAre(xs: seq<ItemKey>)
    requires Distinct(xs)
    ensures Distinct(GoneItems(xs)) && forall t :: t in GoneItems(xs) <==> t.GoneItem? && t.key in xs
  {
    forall x | x in xs ensures GoneItem(x) in GoneItems(xs) {
      var i :| 0 <= i < |xs| && xs[i] == x;
      assert GoneItems(xs)[i] == GoneItem(x);
    }
  }

  lemma GoneFilesAre(xs: seq<string>)
    requires Distinct(xs)
    ensures Distinct(GoneFiles(xs)) && forall t :: t in GoneFiles(xs) <==> t.GoneFile? && t.path in xs
  {
    forall x | x in xs ensures GoneFile(x) in GoneFiles(xs) {
      var i :| 0 <= i < |xs| && xs[i] == x;
      assert GoneFiles(xs)[i] == GoneFile(x);
    }
  }

  ghost predicate InOrders(o: Orders, t: Task) {
    match t
    case RepoTask => true
    case FileTask(p) => p in o.files
    case ItemTask(key) => key in o.items
    case CallTask(pair) => pair in o.calls
    case GoneCall(pair) => pair in o.oldCalls
    case GoneItem(key) => key in o.oldItems
    case GoneFile(p) => p in o.oldFiles
  }

  ghost predicate EachOnce(o: Orders) {
    Distinct(o.files) && Distinct(o.items) && Distinct(o.calls) && Distinct(o.oldCalls) && Distinct(o.oldItems) && Distinct(o.oldFiles)
  }

  /** The parts of the plan, in the order the program goes through them. */
  lemma PlanParts(o: Orders)
    requires EachOnce(o)
    ensures Distinct(Plan(o)) && forall t :: t in Plan(o) <==> InOrders(o, t)
  {
    FileTasksAre(o.files);
    ItemTasksAre(o.items);
    CallTasksAre(o.calls);
    GoneCallsAre(o.oldCalls);
    GoneItemsAre(o.oldItems);
    GoneFilesAre(o.oldFiles);
    hide FileTasks, ItemTasks, CallTasks, GoneCalls, GoneItems, GoneFiles, Distinct;
    var a := [RepoTask];
    assert Distinct(a) by {
      OneIsDistinct(RepoTask);
    }
    var b := a + FileTasks(o.files);
    DistinctJoin(a, FileTasks(o.files));
    var d := b + ItemTasks(o.items);
    DistinctJoin(b, ItemTasks(o.items));
    var e := d + CallTasks(o.calls);
    DistinctJoin(d, CallTasks(o.calls));
    var f := e + GoneCalls(o.oldCalls);
    DistinctJoin(e, GoneCalls(o.oldCalls));
    var g := f + GoneItems(o.oldItems);
    DistinctJoin(f, GoneItems(o.oldItems));
    DistinctJoin(g, GoneFiles(o.oldFiles));
  }

  lemma OneIsDistinct<T>(x: T)
    ensures Distinct([x])
  {
  }

  lemma FirstPart(a: seq<Task>, b: seq<Task>, n: nat)
    requires n < |a + b| && (a + b)[n] !in a
    ensures forall t :: t in a ==> t in (a + b)[..n]
  {
    assert forall i :: 0 <= i < |a| ==> (a + b)[i] in a;
    forall t | t in a ensures t in (a + b)[..n] {
      var i :| 0 <= i < |a| && a[i] == t;
      assert (a + b)[..n][i] == t;
    }
  }

  lemma PlanEndsFirst(o: Orders, j: Job)
    requires EachOnce(o) && (forall p :: p in j.c.blobs ==> p in o.files) && forall key :: key in j.c.items ==> key in o.items
    ensures EndsFirst(j, Plan(o))
  {
    FileTasksAre(o.files);
    ItemTasksAre(o.items);
    var f, i := FileTasks(o.files), ItemTasks(o.items);
    var rest := CallTasks(o.calls) + GoneCalls(o.oldCalls) + GoneItems(o.oldItems) + GoneFiles(o.oldFiles);
    hide FileTasks, ItemTasks, CallTasks, GoneCalls, GoneItems, GoneFiles, Distinct;
    var plan := Plan(o);
    assert plan == [RepoTask] + (f + i + rest) && plan == ([RepoTask] + f) + (i + rest) && plan == ([RepoTask] + f + i) + rest;
    forall n | 0 <= n < |plan|
      ensures plan[n].FileTask? || plan[n].ItemTask? || plan[n].CallTask? ==> RepoTask in plan[..n]
      ensures plan[n].ItemTask? || plan[n].CallTask? ==> forall p :: p in j.c.blobs ==> FileTask(p) in plan[..n]
      ensures plan[n].CallTask? ==> forall key :: key in j.c.items ==> ItemTask(key) in plan[..n]
    {
      if plan[n].FileTask? || plan[n].ItemTask? || plan[n].CallTask? {
        FirstPart([RepoTask], f + i + rest, n);
      }
      if plan[n].ItemTask? || plan[n].CallTask? {
        FirstPart([RepoTask] + f, i + rest, n);
      }
      if plan[n].CallTask? {
        FirstPart([RepoTask] + f + i, rest, n);
      }
    }
  }

  // ---------------------------------------------------------------- the state afterwards

  /** Every slot with a change is among the slots. */
  ghost predicate Exhaustive(j: Job, slots: seq<Slot>) {
    forall slot :: ChangeFor(j, slot).Some? ==> slot in slots
  }

  lemma WalksAll(j: Job, idx: Index, o: Orders)
    requires Agrees(idx, j.s, j.l) && Walks(o, j.c, idx, j.mint)
    ensures forall p :: p in j.c.blobs ==> p in o.files
    ensures forall key :: key in j.c.items ==> key in o.items
    ensures forall pair :: pair in Refs(j) ==> pair in o.calls
    ensures forall pair :: pair in idx.calls ==> pair in o.oldCalls
    ensures forall key :: key in idx.items ==> key in o.oldItems
    ensures forall p :: p in idx.files ==> p in o.oldFiles
  {
    RefsAgree(j, idx);
    hide Agrees, Refs, CallRefs, Distinct;
  }

  /** What is laid out is in the index. */
  lemma LaidIsIndexed(j: Job, idx: Index, slot: Slot)
    requires Whole(j.l) && Agrees(idx, j.s, j.l) && slot in j.l.ids
    ensures slot.FileSlot? || slot.InRepoSlot? ==> slot.path in idx.files
    ensures slot.ItemSlot? || slot.DeclaresSlot? ==> slot.key in idx.items
    ensures slot.CallSlot? ==> slot.pair in idx.calls
  {
    match slot {
      case RepoSlot =>
      case FileSlot(p) =>
        Slotted(j, idx, slot);
      case InRepoSlot(p) =>
        assert FileSlot(p) in j.l.ids;
        Slotted(j, idx, FileSlot(p));
      case ItemSlot(key) =>
        Slotted(j, idx, slot);
      case DeclaresSlot(key) =>
        assert ItemSlot(key) in j.l.ids;
        Slotted(j, idx, ItemSlot(key));
      case CallSlot(pair) =>
        Slotted(j, idx, slot);
    }
    hide Agrees, Whole;
  }

  function TurnOf(j: Job, slot: Slot): Task {
    match slot
    case RepoSlot => RepoTask
    case FileSlot(p) => if p in j.c.blobs then FileTask(p) else GoneFile(p)
    case InRepoSlot(p) => if p in j.c.blobs then FileTask(p) else GoneFile(p)
    case ItemSlot(key) => if key in j.c.items then ItemTask(key) else GoneItem(key)
    case DeclaresSlot(key) => if key in j.c.items then ItemTask(key) else GoneItem(key)
    case CallSlot(pair) => if pair in Refs(j) then CallTask(pair) else GoneCall(pair)
  }

  lemma ChangeMeans(j: Job, slot: Slot)
    requires ChangeFor(j, slot).Some?
    ensures Wanted(j, slot) || slot in j.l.ids
  {
    hide Wanted, Stale, Content;
  }

  lemma SlotInTurn(j: Job, slot: Slot)
    ensures slot in TaskSlots(j, TurnOf(j, slot))
  {
    hide Refs;
  }

  lemma WantedTurn(j: Job, idx: Index, o: Orders, slot: Slot)
    requires Agrees(idx, j.s, j.l) && Walks(o, j.c, idx, j.mint) && Wanted(j, slot)
    ensures InOrders(o, TurnOf(j, slot))
  {
    hide Agrees, Refs, Walks;
    WalksAll(j, idx, o);
  }

  lemma LaidTurn(j: Job, idx: Index, o: Orders, slot: Slot)
    requires Whole(j.l) && Agrees(idx, j.s, j.l) && Walks(o, j.c, idx, j.mint) && slot in j.l.ids && !Wanted(j, slot)
    ensures InOrders(o, TurnOf(j, slot))
  {
    hide Whole, Agrees, Refs, Walks;
    WalksAll(j, idx, o);
    LaidIsIndexed(j, idx, slot);
  }

  /** A slot has a change only if it is wanted or laid out, and then its turn comes. */
  lemma TurnComes(j: Job, idx: Index, o: Orders, slot: Slot)
    requires Whole(j.l) && Agrees(idx, j.s, j.l) && Walks(o, j.c, idx, j.mint)
    requires ChangeFor(j, slot).Some?
    ensures InOrders(o, TurnOf(j, slot)) && slot in TaskSlots(j, TurnOf(j, slot))
  {
    hide *;
    ChangeMeans(j, slot);
    SlotInTurn(j, slot);
    if Wanted(j, slot) {
      WantedTurn(j, idx, o, slot);
    } else {
      LaidTurn(j, idx, o, slot);
    }
  }

  lemma OrderedTasks(j: Job, idx: Index, o: Orders, task: Task)
    requires Agrees(idx, j.s, j.l) && Walks(o, j.c, idx, j.mint) && InOrders(o, task)
    ensures Proper(j, idx, task)
  {
    RefsAgree(j, idx);
    hide Agrees, Refs, CallRefs;
  }

  /** The program's plan handles each slot once, ends before edges, and leaves no change out. */
  lemma PlanWorks(j: Job, idx: Index, o: Orders)
    requires Ready(j) && Agrees(idx, j.s, j.l) && Walks(o, j.c, idx, j.mint)
    ensures InSequence(j, PlanSlots(j, Plan(o))) && Exhaustive(j, PlanSlots(j, Plan(o)))
    ensures PlanOps(j.c, idx, j.mint, Plan(o)) == SlotsOps(j, PlanSlots(j, Plan(o)))
  {
    assert EachOnce(o) && (forall p :: p in j.c.blobs ==> p in o.files) && forall key :: key in j.c.items ==> key in o.items;
    assert Whole(j.l);
    PlanParts(o);
    PlanEndsFirst(o, j);
    hide Laid, FreshIds, Sane, Agrees, Walks, EachOnce, InOrders, EndsFirst, Proper, Plan, Distinct, TaskSlots, ChangeFor, InSequence, TurnOf, Whole;
    forall task | task in Plan(o) ensures Proper(j, idx, task) {
      OrderedTasks(j, idx, o, task);
    }
    PlanInSequence(j, idx, Plan(o));
    PlanOpsAreSlots(j, idx, Plan(o));
    forall slot | ChangeFor(j, slot).Some? ensures slot in PlanSlots(j, Plan(o)) {
      TurnComes(j, idx, o, slot);
      InPlan(j, Plan(o), TurnOf(j, slot), slot);
    }
  }

  lemma TargetKey(j: Job, slot: Slot)
    requires Wanted(j, slot)
    ensures slot in Target(j).ids && KeyIn(Target(j), slot) == KeyOfSlot(j, slot)
  {
    TargetIds(j, slot);
    hide Target, Wanted, IdOf;
  }

  lemma TargetInjective(j: Job, a: Slot, b: Slot)
    requires Ready(j) && a in Target(j).ids && b in Target(j).ids && KeyIn(Target(j), a) == KeyIn(Target(j), b)
    ensures a == b
  {
    hide *;
    TargetIds(j, a);
    TargetIds(j, b);
    TargetKey(j, a);
    TargetKey(j, b);
    KeysDiffer(j, a, b);
  }

  lemma TargetFiles(j: Job)
    ensures forall p :: FileSlot(p) in Target(j).ids <==> p in Target(j).blobs
    ensures forall p :: InRepoSlot(p) in Target(j).ids <==> p in Target(j).blobs
    ensures RepoSlot in Target(j).ids
  {
    assert Target(j).blobs.Keys == j.c.blobs.Keys;
    hide Refs, IdOf, Target, BlobRef;
    TargetIds(j, RepoSlot);
    forall p ensures FileSlot(p) in Target(j).ids <==> p in j.c.blobs {
      TargetIds(j, FileSlot(p));
    }
    forall p ensures InRepoSlot(p) in Target(j).ids <==> p in j.c.blobs {
      TargetIds(j, InRepoSlot(p));
    }
  }

  lemma TargetItems(j: Job)
    requires Sane(j.c)
    ensures forall key :: ItemSlot(key) in Target(j).ids <==> DeclaresSlot(key) in Target(j).ids
    ensures forall key :: ItemSlot(key) in Target(j).ids ==> key.0 in Target(j).blobs
  {
    assert Target(j).blobs.Keys == j.c.blobs.Keys;
    hide Refs, IdOf, Target, BlobRef;
    forall key ensures ItemSlot(key) in Target(j).ids <==> key in j.c.items {
      TargetIds(j, ItemSlot(key));
    }
    forall key ensures DeclaresSlot(key) in Target(j).ids <==> key in j.c.items {
      TargetIds(j, DeclaresSlot(key));
    }
  }

  lemma TargetAttached(j: Job)
    requires Sane(j.c)
    ensures Attached(Target(j))
  {
    hide Sane, Target;
    TargetFiles(j);
    TargetItems(j);
  }

  lemma TargetWhole(j: Job)
    requires Ready(j)
    ensures Whole(Target(j))
  {
    assert Sane(j.c);
    hide Sane, Ready, Target, KeyIn, Attached;
    TargetAttached(j);
    forall a, b | a in Target(j).ids && b in Target(j).ids && KeyIn(Target(j), a) == KeyIn(Target(j), b) ensures a == b {
      TargetInjective(j, a, b);
    }
  }

  /** A changed key is live code only where the import wanted something. */
  lemma ChangedIsWanted(sha: Sha, j: Job, slots: seq<Slot>, k: Key)
    requires Ready(j) && Changed(j, slots, k) && k in After(sha, j, slots) && !After(sha, j, slots)[k].deleted
    ensures exists slot :: Wanted(j, slot) && KeyOfSlot(j, slot) == k
  {
    var slot :| slot in slots && ChangeFor(j, slot).Some? && KeyOfSlot(j, slot) == k;
    hide Ready, After, KeyOfSlot, NewObject;
    AfterAt(sha, j, slots, slot);
    assert !ChangeFor(j, slot).value.Drop?;
    hide Stale, Content;
    assert Wanted(j, slot);
  }

  lemma UnchangedIsWanted(sha: Sha, j: Job, slots: seq<Slot>, k: Key)
    requires Ready(j) && Exhaustive(j, slots) && !Changed(j, slots, k) && Live(After(sha, j, slots), k) != Other
    ensures exists slot :: Wanted(j, slot) && KeyOfSlot(j, slot) == k
  {
    ReadyIsLaid(j);
    AfterElsewhere(sha, j, slots, k);
    assert Live(j.s, k) != Other;
    var slot := SlotOf(j.s, j.l, k);
    assert KeyOfSlot(j, slot) == k;
    assert !Wanted(j, slot) ==> ChangeFor(j, slot).Some?;
  }

  /** The state after the import is laid out as the commit says. */
  lemma TargetLaid(sha: Sha, j: Job, slots: seq<Slot>)
    requires Ready(j) && Exhaustive(j, slots)
    ensures Laid(After(sha, j, slots), Target(j))
  {
    TargetWhole(j);
    var t := After(sha, j, slots);
    hide Ready, After, Whole, CodeIn, KeyOfSlot, Wanted, ChangeFor, KeyIn, Target, Changed;
    forall slot | slot in Target(j).ids ensures Live(t, KeyIn(Target(j), slot)) == CodeIn(Target(j), slot) {
      TargetIds(j, slot);
      TargetKey(j, slot);
      WantedIsLive(sha, j, slots, slot);
    }
    forall k | Live(t, k) != Other ensures exists slot :: slot in Target(j).ids && k == KeyIn(Target(j), slot) {
      if Changed(j, slots, k) {
        ChangedIsWanted(sha, j, slots, k);
      } else {
        UnchangedIsWanted(sha, j, slots, k);
      }
      var slot :| Wanted(j, slot) && KeyOfSlot(j, slot) == k;
      TargetKey(j, slot);
    }
  }

  // ---------------------------------------------------------------- exactness

  ghost predicate FilesMatch(c: Commit, idx: Index) {
    && idx.repo.Some?
    && idx.files.Keys == c.blobs.Keys && idx.inRepo.Keys == c.blobs.Keys
    && forall p :: p in c.blobs ==> idx.files[p].2 == BlobRef(c, p)
  }

  ghost predicate ItemsMatch(c: Commit, idx: Index) {
    && idx.items.Keys == c.items.Keys && idx.declares.Keys == c.items.Keys
    && forall key :: key in c.items ==> Get(idx.items[key].2, "attributes") == Some(ItemAttributes(key, c.items[key]))
  }

  ghost predicate CallsMatch(c: Commit, idx: Index) {
    && (forall p :: p in c.calls ==> p.0 in c.items && p.1 in c.items)
    && idx.calls.Keys == set p | p in c.calls && p.0 in idx.items && p.1 in idx.items ::
         (NodeRef(idx.items[p.0].0), NodeRef(idx.items[p.1].0))
  }

  /** The index holds what the commit holds: files by blob, items by attributes, calls between those items. */
  ghost predicate Exact(c: Commit, idx: Index) {
    FilesMatch(c, idx) && ItemsMatch(c, idx) && CallsMatch(c, idx)
  }

  lemma ItemAttributesIsMap(key: ItemKey, x: Extracted)
    ensures ItemAttributes(key, x).Map?
  {
  }

  lemma ExactRefs(c: Commit, idx: Index, mint: Mint)
    requires Exact(c, idx)
    ensures CallRefs(c, idx, mint) == idx.calls.Keys
  {
    hide BlobRef, ItemAttributes, NodeRef;
    assert forall key :: key in c.items ==> ItemId(idx, mint, key) == idx.items[key].0;
    hide ItemId;
  }

  lemma ExactTaskIsIdle(c: Commit, idx: Index, mint: Mint, task: Task)
    requires Exact(c, idx)
    requires task.CallTask? ==> task.pair in CallRefs(c, idx, mint)
    ensures TaskOps(c, idx, mint, task) == []
  {
    hide BlobRef, ItemAttributes, CallRefs, ItemContent, FileContent, EdgePayload, RepoContent, NodeRef;
    ExactRefs(c, idx, mint);
    match task {
      case ItemTask(key) =>
        if key in c.items {
          ItemAttributesIsMap(key, c.items[key]);
        }
      case _ =>
    }
  }

  /** Importing a commit the graph already holds emits nothing, whoever derives it and whatever ids are at hand. */
  lemma {:induction false} ExactEmitsNothing(c: Commit, idx: Index, mint: Mint, plan: seq<Task>)
    requires Exact(c, idx)
    requires forall task :: task in plan && task.CallTask? ==> task.pair in CallRefs(c, idx, mint)
    ensures PlanOps(c, idx, mint, plan) == []
  {
    hide Exact, TaskOps, CallRefs;
    if plan == [] {
    } else {
      var init, last := plan[..|plan| - 1], plan[|plan| - 1];
      assert plan == init + [last];
      assert last in plan;
      ExactEmitsNothing(c, idx, mint, init);
      ExactTaskIsIdle(c, idx, mint, last);
    }
  }

  lemma WrittenAttributes(sha: Sha, j: Job, key: ItemKey)
    requires key in j.c.items
    ensures Get(NewObject(sha, Map(Content(j, ItemSlot(key)))).content, "attributes") == Some(ItemAttributes(key, j.c.items[key]))
  {
    hide RevisionHash, ItemAttributes, IdOf, Refs;
  }

  lemma ItemIsWritten(sha: Sha, j: Job, slots: seq<Slot>, key: ItemKey)
    requires Ready(j) && Exhaustive(j, slots) && key in j.c.items && ChangeFor(j, ItemSlot(key)).Some?
    ensures var k := KeyOfSlot(j, ItemSlot(key));
            k in After(sha, j, slots) && Get(After(sha, j, slots)[k].content, "attributes") == Some(ItemAttributes(key, j.c.items[key]))
  {
    hide Ready, After, KeyOfSlot, ItemAttributes, NewObject, Content, Stale;
    AfterAt(sha, j, slots, ItemSlot(key));
    WrittenAttributes(sha, j, key);
  }

  lemma KeptAttributes(j: Job, key: ItemKey)
    requires Laid(j.s, j.l) && key in j.c.items && ChangeFor(j, ItemSlot(key)).None?
    ensures var k := KeyOfSlot(j, ItemSlot(key)); k in j.s && Get(j.s[k].content, "attributes") == Some(ItemAttributes(key, j.c.items[key]))
  {
    hide Laid, ItemAttributes, Refs, Content;
    DropIsHeld(j, ItemSlot(key));
  }

  lemma ItemIsKept(sha: Sha, j: Job, slots: seq<Slot>, key: ItemKey)
    requires Ready(j) && key in j.c.items && ChangeFor(j, ItemSlot(key)).None?
    ensures var k := KeyOfSlot(j, ItemSlot(key));
            k in After(sha, j, slots) && Get(After(sha, j, slots)[k].content, "attributes") == Some(ItemAttributes(key, j.c.items[key]))
  {
    ReadyIsLaid(j);
    hide Ready, After, KeyOfSlot, ItemAttributes, ChangeFor, Laid, Changed;
    NotChanged(j, slots, ItemSlot(key));
    AfterElsewhere(sha, j, slots, KeyOfSlot(j, ItemSlot(key)));
    KeptAttributes(j, key);
  }

  /** After the import an item's attributes are the commit's. */
  lemma ItemIsCurrent(sha: Sha, j: Job, slots: seq<Slot>, key: ItemKey)
    requires Ready(j) && Exhaustive(j, slots) && key in j.c.items
    ensures var k := KeyOfSlot(j, ItemSlot(key));
            k in After(sha, j, slots) && Get(After(sha, j, slots)[k].content, "attributes") == Some(ItemAttributes(key, j.c.items[key]))
  {
    hide *;
    if ChangeFor(j, ItemSlot(key)).Some? {
      ItemIsWritten(sha, j, slots, key);
    } else {
      ItemIsKept(sha, j, slots, key);
    }
  }

  lemma TargetIndexed(sha: Sha, j: Job, slots: seq<Slot>, idx: Index, slot: Slot)
    requires Ready(j) && Exhaustive(j, slots) && Agrees(idx, After(sha, j, slots), Target(j))
    ensures Wanted(j, slot) ==> slot in Target(j).ids && KeyIn(Target(j), slot) == KeyOfSlot(j, slot)
    ensures slot in Target(j).ids ==> KeyIn(Target(j), slot) in After(sha, j, slots)
    ensures Holds(idx, After(sha, j, slots), Target(j), slot, slot in Target(j).ids) && (slot in Target(j).ids <==> Wanted(j, slot))
  {
    TargetIds(j, slot);
    if Wanted(j, slot) {
      TargetKey(j, slot);
    }
    hide Ready, After, Target, Wanted, KeyIn, KeyOfSlot, Holds;
  }

  lemma FilesExact(sha: Sha, j: Job, slots: seq<Slot>, idx: Index)
    requires Ready(j) && Exhaustive(j, slots) && Agrees(idx, After(sha, j, slots), Target(j))
    ensures FilesMatch(j.c, idx)
  {
    hide Ready, After, Agrees, Refs, Exhaustive, BlobRef, KeyIn, IdOf;
    TargetIndexed(sha, j, slots, idx, RepoSlot);
    forall p ensures (p in idx.files <==> p in j.c.blobs) && (p in idx.inRepo <==> p in j.c.blobs)
                     && (p in j.c.blobs ==> idx.files[p].2 == BlobRef(j.c, p)) {
      TargetIndexed(sha, j, slots, idx, FileSlot(p));
      TargetIndexed(sha, j, slots, idx, InRepoSlot(p));
      BlobsTarget(j, p);
      hide Target;
    }
  }

  lemma BlobsTarget(j: Job, p: string)
    ensures p in Target(j).blobs <==> p in j.c.blobs
    ensures p in j.c.blobs ==> Target(j).blobs[p] == BlobRef(j.c, p)
  {
    hide WantedSlots, BlobRef;
  }

  /** The index has the item under its id, with the commit's attributes. */
  ghost predicate ItemMatches(j: Job, idx: Index, key: ItemKey) {
    && key in j.c.items && key in idx.items && idx.items[key].0 == IdOf(j, ItemSlot(key))
    && Get(idx.items[key].2, "attributes") == Some(ItemAttributes(key, j.c.items[key]))
  }

  lemma ItemsExact(sha: Sha, j: Job, slots: seq<Slot>, idx: Index)
    requires Ready(j) && Exhaustive(j, slots) && Agrees(idx, After(sha, j, slots), Target(j))
    ensures idx.items.Keys == j.c.items.Keys && idx.declares.Keys == j.c.items.Keys
    ensures forall key :: key in j.c.items ==> ItemMatches(j, idx, key)
  {
    hide Ready, After, Agrees, Refs, Exhaustive, Target, IdOf, ItemAttributes;
    forall key ensures key in idx.items <==> key in j.c.items {
      TargetIndexed(sha, j, slots, idx, ItemSlot(key));
    }
    forall key ensures key in idx.declares <==> key in j.c.items {
      TargetIndexed(sha, j, slots, idx, DeclaresSlot(key));
    }
    forall key | key in j.c.items ensures ItemMatches(j, idx, key) {
      TargetIndexed(sha, j, slots, idx, ItemSlot(key));
      ItemIsCurrent(sha, j, slots, key);
    }
  }

  lemma CallsExact(sha: Sha, j: Job, slots: seq<Slot>, idx: Index)
    requires Ready(j) && Exhaustive(j, slots) && Agrees(idx, After(sha, j, slots), Target(j))
    ensures idx.calls.Keys == Refs(j)
  {
    hide Ready, After, Agrees, Refs, Exhaustive, Target;
    forall pair ensures pair in idx.calls <==> pair in Refs(j) {
      TargetIndexed(sha, j, slots, idx, CallSlot(pair));
    }
  }

  lemma RefsByIndex(j: Job, idx: Index)
    requires forall key :: key in j.c.items ==> ItemMatches(j, idx, key)
    requires idx.items.Keys == j.c.items.Keys
    ensures Refs(j) == set p | p in j.c.calls && p.0 in idx.items && p.1 in idx.items :: (NodeRef(idx.items[p.0].0), NodeRef(idx.items[p.1].0))
  {
    hide IdOf, ItemAttributes, NodeRef;
    assert forall key :: key in j.c.items ==> idx.items[key].0 == IdOf(j, ItemSlot(key));
    hide ItemMatches;
  }

  lemma ItemsThenMatch(j: Job, idx: Index)
    requires idx.items.Keys == j.c.items.Keys && idx.declares.Keys == j.c.items.Keys
    requires forall key :: key in j.c.items ==> ItemMatches(j, idx, key)
    ensures ItemsMatch(j.c, idx)
  {
    hide IdOf, ItemAttributes;
  }

  lemma CallsThenMatch(j: Job, idx: Index)
    requires Sane(j.c) && idx.calls.Keys == Refs(j) && idx.items.Keys == j.c.items.Keys
    requires forall key :: key in j.c.items ==> ItemMatches(j, idx, key)
    ensures CallsMatch(j.c, idx)
  {
    RefsByIndex(j, idx);
    hide Refs, ItemMatches, NodeRef;
  }

  /** The index of the state after the import holds exactly what the commit holds. */
  lemma IndexIsExact(sha: Sha, j: Job, slots: seq<Slot>)
    requires Ready(j) && Exhaustive(j, slots)
    ensures Exact(j.c, IndexState(After(sha, j, slots)))
  {
    assert Sane(j.c);
    var idx := IndexState(After(sha, j, slots));
    hide Ready, Sane, After, Agrees, Exhaustive, Target, IndexState, Laid, Refs, ItemMatches, FilesMatch, ItemsMatch, CallsMatch;
    TargetLaid(sha, j, slots);
    IndexAgrees(After(sha, j, slots), Target(j));
    FilesExact(sha, j, slots, idx);
    ItemsExact(sha, j, slots, idx);
    CallsExact(sha, j, slots, idx);
    ItemsThenMatch(j, idx);
    CallsThenMatch(j, idx);
  }

  // ---------------------------------------------------------------- acceptance of the whole changeset

  /** The object at the key is dropped by the import. */
  ghost predicate IsRemoved(j: Job, k: Key) {
    exists slot :: slot in j.l.ids && !Wanted(j, slot) && KeyOfSlot(j, slot) == k
  }

  ghost predicate Refers(s: Objects, k: Key, side: string, target: Key)
    requires k in s
  {
    SplitOnce(GetStr(s[k].content, side).GetOr(""), ':') == Some(target)
  }

  /** No live edge of other origin hangs on an object the import drops. */
  ghost predicate Unattached(j: Job) {
    forall k :: LiveOfKind(j.s, k, "edge") && Live(j.s, k) == Other ==>
      forall target :: Refers(j.s, k, "from", target) || Refers(j.s, k, "to", target) ==> !IsRemoved(j, target)
  }

  lemma RefResolves(s: Objects, id: string)
    requires ("node", id) in s && !s[("node", id)].deleted
    ensures ResolveRef(s, NodeRef(id)).Some?
  {
    assert ':' !in "node";
    assert NodeRef(id) == "node" + [':'] + id;
    SplitOnceJoins(NodeRef(id), "node", id, ':');
  }

  lemma LiveIsThere(s: Objects, k: Key)
    requires Live(s, k) != Other
    ensures k in s && !s[k].deleted && CodeOf(k.0, s[k].content) == Live(s, k)
  {
  }

  /** A wanted node is there after the import. */
  lemma WantedResolves(sha: Sha, j: Job, slots: seq<Slot>, slot: Slot)
    requires Ready(j) && Exhaustive(j, slots) && Wanted(j, slot) && KindOf(slot) == "node"
    ensures ResolveRef(After(sha, j, slots), Ref(j, slot)).Some?
  {
    CodeIsNotOther(Target(j), slot);
    ReadyIsLaid(j);
    hide Ready, After, Wanted, Target, CodeIn, Live, NodeRef, KindOf, ChangeFor, ResolveRef, Laid;
    WantedIsLive(sha, j, slots, slot);
    LiveIsThere(After(sha, j, slots), KeyOfSlot(j, slot));
    RefResolves(After(sha, j, slots), IdOf(j, slot));
  }

  lemma EdgeSides(content: Value, code: Code)
    requires code == CodeOf("edge", content)
    ensures var from, to := GetStr(content, "from").GetOr(""), GetStr(content, "to").GetOr("");
            && (code.InRepo? || code.Declares? || code.Calls? ==> code.from == from && code.to == to)
  {
    assert "node"[0] != "edge"[0];
    hide TypeOf;
  }

  /** The ends of a wanted edge. */
  lemma EndsOfEdge(j: Job, slot: Slot) returns (a: Slot, b: Slot)
    requires Sane(j.c) && Wanted(j, slot) && KindOf(slot) == "edge"
    ensures Wanted(j, a) && Wanted(j, b) && KindOf(a) == "node" && KindOf(b) == "node"
    ensures var code := CodeIn(Target(j), slot);
            (code.InRepo? || code.Declares? || code.Calls?) && code.from == Ref(j, a) && code.to == Ref(j, b)
  {
    hide Target, IdOf, Refs, RefIn;
    assert "node"[0] != "edge"[0];
    match slot {
      case InRepoSlot(p) => a, b := FileSlot(p), RepoSlot;
      case DeclaresSlot(key) => a, b := FileSlot(key.0), ItemSlot(key);
      case CallSlot(pair) =>
        var x, y := EndsOfCall(j, pair);
        a, b := ItemSlot(x), ItemSlot(y);
    }
    TargetRef(j, a);
    TargetRef(j, b);
  }

  lemma CodeEdgeHolds(sha: Sha, j: Job, slots: seq<Slot>, slot: Slot)
    requires Ready(j) && Exhaustive(j, slots) && Wanted(j, slot) && KindOf(slot) == "edge"
    ensures var t, k := After(sha, j, slots), KeyOfSlot(j, slot); k in t && SidesResolve(t, t[k].content)
  {
    assert Sane(j.c);
    CodeIsNotOther(Target(j), slot);
    ReadyIsLaid(j);
    hide Laid;
    hide Ready, Sane, After, Wanted, Target, CodeIn, Live, KindOf, ChangeFor, ResolveRef, IdOf, CodeOf;
    var t, k := After(sha, j, slots), KeyOfSlot(j, slot);
    WantedIsLive(sha, j, slots, slot);
    LiveIsThere(t, k);
    EdgeSides(t[k].content, Live(t, k));
    var a, b := EndsOfEdge(j, slot);
    WantedResolves(sha, j, slots, a);
    WantedResolves(sha, j, slots, b);
  }

  /** What other edges refer to is still there. */
  lemma OtherRefStays(sha: Sha, j: Job, slots: seq<Slot>, target: Key)
    requires Ready(j) && !IsRemoved(j, target) && target in j.s && !j.s[target].deleted
    ensures target in After(sha, j, slots) && !After(sha, j, slots)[target].deleted
  {
    ReadyIsLaid(j);
    if Changed(j, slots, target) {
      var slot :| slot in slots && ChangeFor(j, slot).Some? && KeyOfSlot(j, slot) == target;
      hide Ready, Laid, After, KeyOfSlot, Content, Stale, RevisionHash, Changed;
      AfterAt(sha, j, slots, slot);
      assert Wanted(j, slot);
    } else {
      AfterElsewhere(sha, j, slots, target);
    }
  }

  lemma SideStays(sha: Sha, j: Job, slots: seq<Slot>, k: Key, side: string)
    requires Ready(j) && k in j.s && ResolveRef(j.s, GetStr(j.s[k].content, side).GetOr("")).Some?
    requires forall target :: Refers(j.s, k, side, target) ==> !IsRemoved(j, target)
    ensures ResolveRef(After(sha, j, slots), GetStr(j.s[k].content, side).GetOr("")).Some?
  {
    ReadyIsLaid(j);
    hide Ready, After, IsRemoved, Laid;
    var target := SplitOnce(GetStr(j.s[k].content, side).GetOr(""), ':').value;
    assert Refers(j.s, k, side, target);
    OtherRefStays(sha, j, slots, target);
  }

  lemma OtherEdgeHolds(sha: Sha, j: Job, slots: seq<Slot>, k: Key)
    requires Ready(j) && Unattached(j) && NoDangling(j.s)
    requires LiveOfKind(j.s, k, "edge") && Live(j.s, k) == Other
    ensures SidesResolve(After(sha, j, slots), j.s[k].content)
  {
    assert SidesResolve(j.s, j.s[k].content);
    assert forall target :: Refers(j.s, k, "from", target) ==> !IsRemoved(j, target);
    assert forall target :: Refers(j.s, k, "to", target) ==> !IsRemoved(j, target);
    ReadyIsLaid(j);
    hide Laid;
    hide Ready, After, Unattached, NoDangling, IsRemoved, Refers, Live, ResolveRef;
    SideStays(sha, j, slots, k, "from");
    SideStays(sha, j, slots, k, "to");
  }

  lemma EdgeHolds(sha: Sha, j: Job, slots: seq<Slot>, k: Key)
    requires Ready(j) && Exhaustive(j, slots) && Unattached(j) && NoDangling(j.s)
    requires k in After(sha, j, slots) && LiveOfKind(After(sha, j, slots), k, "edge")
    ensures SidesResolve(After(sha, j, slots), After(sha, j, slots)[k].content)
  {
    ReadyIsLaid(j);
    var t := After(sha, j, slots);
    if Changed(j, slots, k) {
      ChangedIsWanted(sha, j, slots, k);
      var slot :| Wanted(j, slot) && KeyOfSlot(j, slot) == k;
      hide Ready, After, Wanted, ChangeFor, IdOf, SidesResolve, Laid;
      CodeEdgeHolds(sha, j, slots, slot);
    } else if Live(t, k) != Other {
      UnchangedIsWanted(sha, j, slots, k);
      var slot :| Wanted(j, slot) && KeyOfSlot(j, slot) == k;
      hide Ready, After, Wanted, ChangeFor, IdOf, SidesResolve, Laid;
      CodeEdgeHolds(sha, j, slots, slot);
    } else {
      AfterElsewhere(sha, j, slots, k);
      hide Ready, After, Wanted, ChangeFor, SidesResolve, Laid, CodeOf;
      OtherEdgeHolds(sha, j, slots, k);
    }
  }

  /** What the import drops is deleted afterwards. */
  lemma RemovedIsDeleted(sha: Sha, j: Job, slots: seq<Slot>, k: Key)
    requires Ready(j) && Exhaustive(j, slots) && IsRemoved(j, k)
    ensures k in After(sha, j, slots) && After(sha, j, slots)[k].deleted
  {
    var slot :| slot in j.l.ids && !Wanted(j, slot) && KeyOfSlot(j, slot) == k;
    hide Ready, After, KeyOfSlot, Wanted;
    AfterAt(sha, j, slots, slot);
  }

  /** What the importer did not write stays as it is. */
  lemma OtherIsUnchanged(sha: Sha, j: Job, slots: seq<Slot>, k: Key)
    requires Ready(j) && k in j.s && Live(j.s, k) == Other
    ensures Laid(j.s, j.l) && k in After(sha, j, slots) && After(sha, j, slots)[k] == j.s[k]
  {
    if Changed(j, slots, k) {
      var slot :| slot in slots && ChangeFor(j, slot).Some? && KeyOfSlot(j, slot) == k;
      KindIs(slot);
      hide Sane, ChangeFor, After, Whole, CodeIn;
      if slot in j.l.ids {
        LaidIsCode(j, slot);
      }
      assert false;
    } else {
      AfterElsewhere(sha, j, slots, k);
    }
  }

  lemma LaidIsCode(j: Job, slot: Slot)
    requires Laid(j.s, j.l) && slot in j.l.ids
    ensures Live(j.s, KeyOfSlot(j, slot)) != Other
  {
    DropIsHeld(j, slot);
  }

  lemma DeletedDoesNotResolve(s: Objects, reference: string, target: Key)
    requires SplitOnce(reference, ':') == Some(target) && target in s && s[target].deleted
    ensures ResolveRef(s, reference).None?
  {
    hide SplitOnce;
  }

  /** Another edge on a removed node is left dangling. */
  lemma AttachedDangles(sha: Sha, j: Job, slots: seq<Slot>, k: Key, side: string, target: Key)
    requires Ready(j) && Exhaustive(j, slots) && LiveOfKind(j.s, k, "edge") && Live(j.s, k) == Other
    requires side in {"from", "to"} && Refers(j.s, k, side, target) && IsRemoved(j, target)
    ensures Laid(j.s, j.l) && !NoDangling(After(sha, j, slots))
  {
    var t := After(sha, j, slots);
    OtherIsUnchanged(sha, j, slots, k);
    RemovedIsDeleted(sha, j, slots, target);
    hide Ready, Exhaustive, After, IsRemoved, Live, ResolveRef, GetStr, SplitOnce;
    DeletedDoesNotResolve(t, GetStr(t[k].content, side).GetOr(""), target);
    assert LiveOfKind(t, k, "edge") && !SidesResolve(t, t[k].content);
  }

  /** An import leaves an edge dangling exactly when another live edge hangs on something it removes. */
  lemma NothingDangles(sha: Sha, j: Job, slots: seq<Slot>)
    requires Ready(j) && Exhaustive(j, slots) && NoDangling(j.s)
    ensures Laid(j.s, j.l) && (NoDangling(After(sha, j, slots)) <==> Unattached(j))
  {
    ReadyIsLaid(j);
    var t := After(sha, j, slots);
    if Unattached(j) {
      hide Ready, Exhaustive, Unattached, After, SidesResolve, Laid;
      forall k | k in t && LiveOfKind(t, k, "edge") ensures SidesResolve(t, t[k].content) {
        EdgeHolds(sha, j, slots, k);
      }
    } else {
      hide Ready, Exhaustive, After, SidesResolve, Laid, Refers, IsRemoved, NoDangling, Live;
      var k, target :| LiveOfKind(j.s, k, "edge") && Live(j.s, k) == Other && (Refers(j.s, k, "from", target) || Refers(j.s, k, "to", target)) && IsRemoved(j, target);
      AttachedDangles(sha, j, slots, k, if Refers(j.s, k, "from", target) then "from" else "to", target);
    }
  }

  /** The state after an import. */
  function Imported(sha: Sha, j: Job, o: Orders): Objects
    requires Laid(j.s, j.l)
  {
    After(sha, j, PlanSlots(j, Plan(o)))
  }

  /** The working state of an import's changeset: its objects, and what the rules get to see. */
  function ImportWorking(sha: Sha, reg: Registry, j: Job, o: Orders): Result<Working> {
    ApplyOps(sha, reg, Working(j.s, [], []), PlanOps(j.c, IndexState(j.s), j.mint, Plan(o)))
  }

  /**
   * The fold accepts the changeset of an import exactly when no edge of other origin hangs on what it
   * removes and the installed validation rules hold of it. The code graph is then laid out for the next
   * import, and its index holds exactly what the commit holds.
   */
  lemma ImportIsExact(sha: Sha, reg: Registry, j: Job, o: Orders, cs: Value)
    requires Ready(j) && AcceptsCode(reg, j.c) && Walks(o, j.c, IndexState(j.s), j.mint) && NoDangling(j.s)
    requires CheckHeader(sha, cs) == Ok(PlanOps(j.c, IndexState(j.s), j.mint, Plan(o)))
    ensures ImportWorking(sha, reg, j, o).Ok?
    ensures Apply(sha, reg, j.s, cs).Ok? <==> Unattached(j) && RulesHold(reg, ImportWorking(sha, reg, j, o).value)
    ensures Apply(sha, reg, j.s, cs).Ok? ==> Apply(sha, reg, j.s, cs) == Ok(Imported(sha, j, o))
    ensures NoDangling(Imported(sha, j, o)) <==> Unattached(j)
    ensures Laid(Imported(sha, j, o), Target(j)) && Exact(j.c, IndexState(Imported(sha, j, o)))
  {
    ReadyIsLaid(j);
    IndexAgrees(j.s, j.l);
    var slots := PlanSlots(j, Plan(o));
    hide Ready, Laid, AcceptsCode, Walks, Unattached, NoDangling, Agrees, CheckHeader, RulesHold, Target, Exact, IndexState, Plan, PlanSlots, PlanOps, After, ApplyOps,
         Exhaustive, InSequence, SlotsOps;
    PlanWorks(j, IndexState(j.s), o);
    SlotsApply(sha, reg, j, slots);
    NothingDangles(sha, j, slots);
    TargetLaid(sha, j, slots);
    IndexIsExact(sha, j, slots);
  }

  /** Under a schema without rules on code types, whatever other rules it has, the edges alone decide. */
  lemma ImportIsAccepted(sha: Sha, reg: Registry, j: Job, o: Orders, cs: Value)
    requires Ready(j) && AcceptsCode(reg, j.c) && Walks(o, j.c, IndexState(j.s), j.mint)
    requires NoDangling(j.s) && RulesPassOver(reg, CODE_TYPES)
    requires CheckHeader(sha, cs) == Ok(PlanOps(j.c, IndexState(j.s), j.mint, Plan(o)))
    ensures Apply(sha, reg, j.s, cs).Ok? <==> Unattached(j)
    ensures Unattached(j) ==> Apply(sha, reg, j.s, cs) == Ok(Imported(sha, j, o))
  {
    ImportIsExact(sha, reg, j, o, cs);
    ReadyIsLaid(j);
    IndexAgrees(j.s, j.l);
    var slots := PlanSlots(j, Plan(o));
    hide Ready, Laid, AcceptsCode, Walks, Unattached, NoDangling, Agrees, CheckHeader, RulesHold, RulesPassOver, Target, Exact, IndexState, Plan, PlanSlots, PlanOps, After,
         ApplyOps, Apply, Exhaustive, InSequence, SlotsOps;
    PlanWorks(j, IndexState(j.s), o);
    ImportPasses(sha, reg, j, slots);
  }

  /** The shipped code ontology is such a schema, unless some other package has rules on its types. */
  lemma ShippedImportIsAccepted(sha: Sha, reg: Registry, j: Job, o: Orders, cs: Value)
    requires Ready(j) && ShipsCode(reg) && Scanned(j.c) && Walks(o, j.c, IndexState(j.s), j.mint)
    requires NoDangling(j.s) && RulesPassOver(reg, CODE_TYPES)
    requires CheckHeader(sha, cs) == Ok(PlanOps(j.c, IndexState(j.s), j.mint, Plan(o)))
    ensures Laid(j.s, j.l) && (Apply(sha, reg, j.s, cs).Ok? <==> Unattached(j))
    ensures Unattached(j) ==> Apply(sha, reg, j.s, cs) == Ok(Imported(sha, j, o))
  {
    hide *;
    ReadyIsLaid(j);
    ShippedAcceptsCode(reg, j.c);
    ImportIsAccepted(sha, reg, j, o, cs);
  }

  lemma ExactIgnoresProvenance(c: Commit, idx: Index, provenance: Value)
    requires Exact(c, idx)
    ensures Exact(c.(provenance := provenance), idx)
  {
    hide ItemAttributes, NodeRef;
    var d := c.(provenance := provenance);
    assert forall p :: p in c.blobs ==> BlobRef(d, p) == BlobRef(c, p);
    hide BlobRef;
  }

  /** Importing the same contents once more emits nothing, even when another commit derives them. */
  lemma SecondImportIsIdle(sha: Sha, j: Job, o: Orders, provenance: Value, mint: Mint, again: Orders)
    requires Ready(j) && Walks(o, j.c, IndexState(j.s), j.mint)
    requires Walks(again, j.c.(provenance := provenance), IndexState(Imported(sha, j, o)), mint)
    ensures PlanOps(j.c.(provenance := provenance), IndexState(Imported(sha, j, o)), mint, Plan(again)) == []
  {
    hide *;
    ReadyIsLaid(j);
    IndexAgrees(j.s, j.l);
    var c, idx := j.c.(provenance := provenance), IndexState(Imported(sha, j, o));
    OrdersOfWalk(again, c, idx, mint);
    ImportedIs(sha, j, o);
    PlanWorks(j, IndexState(j.s), o);
    IndexIsExact(sha, j, PlanSlots(j, Plan(o)));
    ExactIgnoresProvenance(j.c, idx, provenance);
    PlanParts(again);
    CallTasksWalk(again, c, idx, mint);
    ExactEmitsNothing(c, idx, mint, Plan(again));
  }

  lemma ImportedIs(sha: Sha, j: Job, o: Orders)
    requires Laid(j.s, j.l)
    ensures Imported(sha, j, o) == After(sha, j, PlanSlots(j, Plan(o)))
  {
    hide Laid, After, PlanSlots, Plan;
  }

  lemma OrdersOfWalk(o: Orders, c: Commit, idx: Index, mint: Mint)
    requires Walks(o, c, idx, mint)
    ensures EachOnce(o) && forall pair :: pair in o.calls ==> pair in CallRefs(c, idx, mint)
  {
    hide CallRefs, Distinct;
  }

  lemma CallTasksWalk(o: Orders, c: Commit, idx: Index, mint: Mint)
    requires forall t :: t in Plan(o) <==> InOrders(o, t)
    requires forall pair :: pair in o.calls ==> pair in CallRefs(c, idx, mint)
    ensures forall t :: t in Plan(o) && t.CallTask? ==> t.pair in CallRefs(c, idx, mint)
  {
    hide Plan, CallRefs;
  }

  /** A state without code objects is laid out for a first import. */
  lemma NothingImportedYet(s: Objects)
    requires forall k :: k in s ==> Live(s, k) == Other
    ensures Laid(s, Layout(map[], map[]))
  {
    hide CodeOf;
  }
}
