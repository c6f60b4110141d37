/**
 * The parent walk of the substrate conformance check
 * (crates/allod-substrate/src/conformance.rs:44-75): a depth-first search on an explicit stack with
 * exit markers, bounded by a step limit. Looking a revision up is a map lookup that may fail.
 */
module Conformance {
  import opened Graphs
  import opened Text

  type Revisions = map<string, seq<string>>

  const MAX_WALK := 10_000

  function Next(revs: Revisions): Successors<string> {
    h => if h in revs then set p | p in revs[h] else {}
  }

  datatype Outcome =
    | Walked
    | Cycle(at: string)
    | TooLong
    | Missing(at: string)

  datatype Frame = Frame(rev: string, exiting: bool)

  /** The revisions reachable from the head that the substrate knows. */
  ghost function Ancestors(revs: Revisions, head: string): set<string> {
    set x | x in revs && Reaches(Next(revs), head, x)
  }

  /** Complete, acyclic, and within the walk limit. */
  ghost predicate SoundHistory(revs: Revisions, head: string) {
    && (forall x :: Reaches(Next(revs), head, x) ==> x in revs && !OnCycle(Next(revs), x))
    && |Ancestors(revs, head)| <= MAX_WALK
  }

  // ---------------------------------------------------------------- the walk's invariant

  ghost predicate Marked(stack: seq<Frame>, h: string) {
    exists i :: 0 <= i < |stack| && stack[i] == Frame(h, true)
  }

  /** Everything above an exit marker is reachable from it, and is neither its revision again. */
  ghost predicate Stacked(revs: Revisions, head: string, stack: seq<Frame>) {
    && (forall i :: 0 <= i < |stack| ==> Reaches(Next(revs), head, stack[i].rev))
    && (forall i, j :: 0 <= i < j < |stack| && stack[i].exiting ==>
          Reaches(Next(revs), stack[i].rev, stack[j].rev) && stack[i].rev != stack[j].rev)
  }

  ghost predicate Above(stack: seq<Frame>, i: int, p: string) {
    exists j :: i < j < |stack| && 0 <= j && stack[j].rev == p
  }

  /** Every parent of a revision on the path is finished, or waits above its marker. */
  ghost predicate Accounted(revs: Revisions, stack: seq<Frame>, done: set<string>, n: nat) {
    forall i, p :: 0 <= i < n && i < |stack| && stack[i].exiting && stack[i].rev in revs && p in revs[stack[i].rev] ==>
      p in done || Above(stack, i, p)
  }

  /** Finished revisions are known, and their parents finished before them. */
  ghost predicate Finished(revs: Revisions, done: set<string>, rank: map<string, nat>) {
    && done == rank.Keys && done <= revs.Keys
    && (forall x :: x in done ==> rank[x] < |done|)
    && forall x, p :: x in done && p in revs[x] ==> p in done && rank[p] < rank[x]
  }

  ghost predicate Walking(revs: Revisions, head: string, stack: seq<Frame>, onPath: set<string>, done: set<string>, entered: seq<string>) {
    && Stacked(revs, head, stack)
    && (forall h :: h in onPath <==> Marked(stack, h))
    && onPath !! done && onPath <= revs.Keys
    && (head in done || Above(stack, -1, head))
    && Distinct(entered) && (forall x :: x in entered <==> x in onPath || x in done)
    && (forall x :: x in entered ==> Reaches(Next(revs), head, x))
  }

  ghost predicate Consistent(revs: Revisions, head: string, stack: seq<Frame>, onPath: set<string>, done: set<string>, entered: seq<string>, rank: map<string, nat>) {
    && Walking(revs, head, stack, onPath, done, entered)
    && Accounted(revs, stack, done, |stack|)
    && Finished(revs, done, rank)
  }

  // ---------------------------------------------------------------- the steps

  lemma AboveInRest(rest: seq<Frame>, top: Frame, i: int, p: string)
    requires Above(rest + [top], i, p) && p != top.rev
    ensures Above(rest, i, p)
  {
    var j :| i < j < |rest + [top]| && 0 <= j && (rest + [top])[j].rev == p;
    assert rest[j].rev == p;
  }

  lemma MarkedInRest(rest: seq<Frame>, top: Frame, h: string)
    ensures Marked(rest + [top], h) <==> Marked(rest, h) || top == Frame(h, true)
  {
    var stack := rest + [top];
    if Marked(rest, h) {
      var i :| 0 <= i < |rest| && rest[i] == Frame(h, true);
      assert stack[i] == Frame(h, true);
    }
    assert stack[|rest|] == top;
  }

  lemma StackedRest(revs: Revisions, head: string, rest: seq<Frame>, top: Frame)
    requires Stacked(revs, head, rest + [top])
    ensures Stacked(revs, head, rest)
    ensures Reaches(Next(revs), head, top.rev)
    ensures !Marked(rest, top.rev)
  {
    var stack := rest + [top];
    assert stack[|rest|] == top;
    assert forall i :: 0 <= i < |rest| ==> stack[i] == rest[i];
    hide Reaches;
  }

  lemma ParentsFinished(revs: Revisions, rest: seq<Frame>, h: string, done: set<string>)
    requires h in revs
    requires Accounted(revs, rest + [Frame(h, true)], done, |rest| + 1)
    ensures forall p :: p in revs[h] ==> p in done
    ensures Accounted(revs, rest, done + {h}, |rest|)
  {
    var top := Frame(h, true);
    var stack := rest + [top];
    forall p | p in revs[h] ensures p in done {
      assert stack[|rest|] == top;
      assert !Above(stack, |rest|, p);
    }
    forall i, p | 0 <= i < |rest| && rest[i].exiting && rest[i].rev in revs && p in revs[rest[i].rev]
      ensures p in done + {h} || Above(rest, i, p)
    {
      assert stack[i] == rest[i];
      if p !in done && p != h {
        AboveInRest(rest, top, i, p);
      }
    }
  }

  lemma OneMoreFinished(revs: Revisions, h: string, done: set<string>, rank: map<string, nat>)
    requires Finished(revs, done, rank) && h !in done && h in revs
    requires forall p :: p in revs[h] ==> p in done
    ensures Finished(revs, done + {h}, rank[h := |done|])
  {
    assert |done + {h}| == |done| + 1;
  }

  lemma OffThePath(revs: Revisions, head: string, rest: seq<Frame>, h: string, onPath: set<string>, done: set<string>, entered: seq<string>)
    requires Walking(revs, head, rest + [Frame(h, true)], onPath, done, entered)
    ensures Walking(revs, head, rest, onPath - {h}, done + {h}, entered)
    ensures h in onPath && h !in done && h in revs
  {
    var top := Frame(h, true);
    var stack := rest + [top];
    StackedRest(revs, head, rest, top);
    forall x ensures Marked(stack, x) <==> Marked(rest, x) || x == h {
      MarkedInRest(rest, top, x);
    }
    assert h in onPath;
    hide Reaches, Marked, Stacked;
    if head !in done + {h} {
      AboveInRest(rest, top, -1, head);
    }
  }

  /** Leaving a revision: all of its parents are finished, and now it is. */
  lemma Leave(revs: Revisions, head: string, rest: seq<Frame>, h: string, onPath: set<string>, done: set<string>, entered: seq<string>, rank: map<string, nat>)
    requires Consistent(revs, head, rest + [Frame(h, true)], onPath, done, entered, rank)
    ensures Consistent(revs, head, rest, onPath - {h}, done + {h}, entered, rank[h := |done|])
  {
    hide Walking, Accounted, Finished;
    OffThePath(revs, head, rest, h, onPath, done, entered);
    ParentsFinished(revs, rest, h, done);
    OneMoreFinished(revs, h, done, rank);
  }

  /** A revision already finished when it is met again is dropped. */
  lemma Drop(revs: Revisions, head: string, rest: seq<Frame>, h: string, onPath: set<string>, done: set<string>, entered: seq<string>, rank: map<string, nat>)
    requires Consistent(revs, head, rest + [Frame(h, false)], onPath, done, entered, rank)
    requires h in done
    ensures Consistent(revs, head, rest, onPath, done, entered, rank)
  {
    var top := Frame(h, false);
    var stack := rest + [top];
    StackedRest(revs, head, rest, top);
    forall x ensures Marked(stack, x) <==> Marked(rest, x) {
      MarkedInRest(rest, top, x);
    }
    hide Reaches, Marked, Stacked;
    forall i, p | 0 <= i < |rest| && rest[i].exiting && rest[i].rev in revs && p in revs[rest[i].rev]
      ensures p in done || Above(rest, i, p)
    {
      assert stack[i] == rest[i];
      if p !in done {
        AboveInRest(rest, top, i, p);
      }
    }
    if head !in done {
      AboveInRest(rest, top, -1, head);
    }
  }

  /** A revision met while it is not finished is not on the path either: the program's second guard is dead. */
  lemma NotOnPath(revs: Revisions, head: string, rest: seq<Frame>, h: string, onPath: set<string>, done: set<string>, entered: seq<string>)
    requires Walking(revs, head, rest + [Frame(h, false)], onPath, done, entered)
    ensures h !in onPath
    ensures Reaches(Next(revs), head, h)
  {
    StackedRest(revs, head, rest, Frame(h, false));
    MarkedInRest(rest, Frame(h, false), h);
    hide Reaches;
  }

  lemma AboveSame(rest: seq<Frame>, a: Frame, b: Frame, i: int, p: string)
    requires a.rev == b.rev && Above(rest + [a], i, p)
    ensures Above(rest + [b], i, p)
  {
    var j :| i < j < |rest + [a]| && 0 <= j && (rest + [a])[j].rev == p;
    assert (rest + [b])[j].rev == p;
  }

  /** Entering a revision: it is entered for the first time, and joins the path. */
  lemma Enter(revs: Revisions, head: string, rest: seq<Frame>, h: string, onPath: set<string>, done: set<string>, entered: seq<string>, rank: map<string, nat>)
    requires Consistent(revs, head, rest + [Frame(h, false)], onPath, done, entered, rank)
    requires h !in done && h in revs
    ensures Walking(revs, head, rest + [Frame(h, true)], onPath + {h}, done, entered + [h])
    ensures Accounted(revs, rest + [Frame(h, true)], done, |rest|)
  {
    var was, now := rest + [Frame(h, false)], rest + [Frame(h, true)];
    NotOnPath(revs, head, rest, h, onPath, done, entered);
    forall x ensures Marked(now, x) <==> Marked(was, x) || x == h {
      MarkedInRest(rest, Frame(h, false), x);
      MarkedInRest(rest, Frame(h, true), x);
    }
    hide Reaches, Marked;
    assert Stacked(revs, head, now) by {
      assert forall i :: 0 <= i < |now| ==> now[i].rev == was[i].rev;
      assert forall i :: 0 <= i < |rest| ==> now[i] == was[i];
    }
    hide Stacked;
    forall i, p | 0 <= i < |rest| && now[i].exiting && now[i].rev in revs && p in revs[now[i].rev]
      ensures p in done || Above(now, i, p)
    {
      assert now[i] == was[i];
      if p !in done {
        AboveSame(rest, Frame(h, false), Frame(h, true), i, p);
      }
    }
    if head !in done {
      AboveSame(rest, Frame(h, false), Frame(h, true), -1, head);
    }
  }

  lemma AboveMore(stack: seq<Frame>, top: Frame, i: int, p: string)
    requires Above(stack, i, p)
    ensures Above(stack + [top], i, p)
  {
    var j :| i < j < |stack| && 0 <= j && stack[j].rev == p;
    assert (stack + [top])[j].rev == p;
  }

  /** The markers end at index `m`, the marker of the revision whose parents are being pushed. */
  ghost predicate Pushing(revs: Revisions, stack: seq<Frame>, done: set<string>, m: nat, h: string, k: nat) {
    && m < |stack| && stack[m] == Frame(h, true)
    && (forall j :: m < j < |stack| ==> !stack[j].exiting)
    && h in revs && k <= |revs[h]|
    && (forall p :: p in revs[h][..k] ==> p in done || Above(stack, m, p))
  }

  lemma ReachesTop(revs: Revisions, head: string, stack: seq<Frame>, m: nat, i: nat, p: string)
    requires Stacked(revs, head, stack)
    requires i <= m < |stack| && stack[i].exiting && stack[m].exiting
    requires p in Next(revs)(stack[m].rev)
    ensures Reaches(Next(revs), stack[i].rev, p)
  {
    if i == m {
      ReachesSelf(Next(revs), stack[m].rev);
    }
    ReachesStep(Next(revs), stack[i].rev, stack[m].rev, p);
  }

  lemma Push(revs: Revisions, head: string, stack: seq<Frame>, onPath: set<string>, done: set<string>, entered: seq<string>, m: nat, h: string, k: nat)
    requires Walking(revs, head, stack, onPath, done, entered) && Accounted(revs, stack, done, m)
    requires Pushing(revs, stack, done, m, h, k) && k < |revs[h]|
    requires revs[h][k] !in onPath
    ensures Walking(revs, head, stack + [Frame(revs[h][k], false)], onPath, done, entered)
    ensures Accounted(revs, stack + [Frame(revs[h][k], false)], done, m)
    ensures Pushing(revs, stack + [Frame(revs[h][k], false)], done, m, h, k + 1)
  {
    var p, top := revs[h][k], Frame(revs[h][k], false);
    var now := stack + [top];
    forall x ensures Marked(now, x) <==> Marked(stack, x) {
      MarkedInRest(stack, top, x);
    }
    assert Reaches(Next(revs), head, p) by {
      ReachesStep(Next(revs), head, h, p);
    }
    hide Reaches;
    assert forall i :: 0 <= i < |stack| ==> now[i] == stack[i];
    forall i | 0 <= i < |stack| && stack[i].exiting ensures Reaches(Next(revs), stack[i].rev, p) && stack[i].rev != p {
      ReachesTop(revs, head, stack, m, i, p);
      assert Marked(stack, stack[i].rev);
    }
    assert Stacked(revs, head, now);
    hide Stacked, Marked;
    forall i, q | Above(stack, i, q) ensures Above(now, i, q) {
      AboveMore(stack, top, i, q);
    }
    assert now[|stack|].rev == p;
    assert revs[h][..k + 1] == revs[h][..k] + [p];
  }

  /** A parent on the path closes a cycle through it. */
  lemma BackEdge(revs: Revisions, head: string, stack: seq<Frame>, onPath: set<string>, done: set<string>, entered: seq<string>, m: nat, h: string, k: nat)
    requires Walking(revs, head, stack, onPath, done, entered)
    requires Pushing(revs, stack, done, m, h, k) && k < |revs[h]|
    requires revs[h][k] in onPath
    ensures Reaches(Next(revs), head, revs[h][k]) && OnCycle(Next(revs), revs[h][k])
  {
    var p := revs[h][k];
    assert Marked(stack, p);
    var i :| 0 <= i < |stack| && stack[i] == Frame(p, true);
    assert p in Next(revs)(h);
    ReachesTop(revs, head, stack, m, i, p);
    if i == m {
      ReachesSelf(Next(revs), p);
    }
    StepBack(Next(revs), p, h);
  }

  lemma AllPushed(revs: Revisions, stack: seq<Frame>, done: set<string>, m: nat, h: string)
    requires Accounted(revs, stack, done, m) && h in revs && Pushing(revs, stack, done, m, h, |revs[h]|)
    ensures Accounted(revs, stack, done, |stack|)
  {
    assert revs[h][..|revs[h]|] == revs[h];
  }

  lemma Start(revs: Revisions, head: string)
    ensures Consistent(revs, head, [Frame(head, false)], {}, {}, [], map[])
  {
    ReachesSelf(Next(revs), head);
    var stack := [Frame(head, false)];
    assert stack[0].rev == head;
    hide Reaches;
  }

  lemma EnteredAreReached(revs: Revisions, head: string, stack: seq<Frame>, onPath: set<string>, done: set<string>, entered: seq<string>)
    requires Walking(revs, head, stack, onPath, done, entered)
    ensures Distinct(entered) && forall x :: x in entered ==> Reaches(Next(revs), head, x)
  {
  }

  lemma OneTooMany(revs: Revisions, head: string, stack: seq<Frame>, onPath: set<string>, done: set<string>, entered: seq<string>, h: string)
    requires Walking(revs, head, stack, onPath, done, entered) && h !in onPath && h !in done && Reaches(Next(revs), head, h)
    requires |entered| == MAX_WALK
    ensures Distinct(entered + [h]) && forall x :: x in entered + [h] ==> Reaches(Next(revs), head, x)
    ensures !SoundHistory(revs, head)
  {
    hide Reaches, OnCycle, Stacked, Marked, SoundHistory;
    TooMany(revs, head, entered + [h]);
  }

  lemma StartPushing(revs: Revisions, rest: seq<Frame>, done: set<string>, h: string)
    requires h in revs
    ensures Pushing(revs, rest + [Frame(h, true)], done, |rest|, h, 0)
  {
  }

  lemma SkipFinished(revs: Revisions, stack: seq<Frame>, done: set<string>, m: nat, h: string, k: nat)
    requires Pushing(revs, stack, done, m, h, k) && k < |revs[h]| && revs[h][k] in done
    ensures Pushing(revs, stack, done, m, h, k + 1)
  {
    assert revs[h][..k + 1] == revs[h][..k] + [revs[h][k]];
  }

  lemma UnsoundAt(revs: Revisions, head: string, x: string)
    requires Reaches(Next(revs), head, x) && (x !in revs || OnCycle(Next(revs), x))
    ensures !SoundHistory(revs, head)
  {
  }

  // ---------------------------------------------------------------- the end of the walk

  lemma NothingOnPath(revs: Revisions, head: string, onPath: set<string>, done: set<string>, entered: seq<string>)
    requires Walking(revs, head, [], onPath, done, entered)
    ensures onPath == {}
  {
    assert forall h :: !Marked([], h);
  }

  lemma AllWalked(revs: Revisions, head: string, done: set<string>, entered: seq<string>, rank: map<string, nat>)
    requires Walking(revs, head, [], {}, done, entered) && Finished(revs, done, rank)
    requires |entered| <= MAX_WALK
    ensures SoundHistory(revs, head)
    ensures forall x :: x in entered <==> Reaches(Next(revs), head, x)
  {
    assert Closed(Next(revs), done);
    RankedAcyclic(Next(revs), done, rank);
    assert head in done;
    forall x | Reaches(Next(revs), head, x) ensures x in done {
      ClosedContains(Next(revs), done, head, x);
    }
    hide Reaches, OnCycle, Closed;
    assert Ancestors(revs, head) == done;
    SetSize(done, entered);
  }

  lemma SetSize<T>(s: set<T>, listed: seq<T>)
    requires forall x :: x in s ==> x in listed
    ensures |s| <= |listed|
  {
    if listed == [] {
      assert s == {};
    } else {
      var last, front := listed[|listed| - 1], listed[..|listed| - 1];
      assert listed == front + [last];
      SetSize(s - {last}, front);
      assert |s| <= |s - {last}| + 1;
    }
  }

  lemma TooMany(revs: Revisions, head: string, entered: seq<string>)
    requires Distinct(entered) && |entered| > MAX_WALK
    requires forall x :: x in entered ==> Reaches(Next(revs), head, x)
    ensures !SoundHistory(revs, head)
  {
    hide Reaches, OnCycle;
    if SoundHistory(revs, head) {
      DistinctFits(entered, Ancestors(revs, head));
      assert false;
    }
  }

  /**
   * The walk succeeds exactly on sound histories; a reported cycle is a real one reachable from the
   * head, so shared ancestors never raise one; no revision is entered twice.
   */
  method WalkParents(revs: Revisions, head: string) returns (r: Outcome, ghost entered: seq<string>)
    ensures r.Walked? <==> SoundHistory(revs, head)
    ensures r.Cycle? ==> Reaches(Next(revs), head, r.at) && OnCycle(Next(revs), r.at)
    ensures r.Missing? ==> Reaches(Next(revs), head, r.at) && r.at !in revs
    ensures r.TooLong? ==> |entered| == MAX_WALK + 1
    ensures Distinct(entered) && forall x :: x in entered ==> Reaches(Next(revs), head, x)
    ensures r.Walked? ==> forall x :: x in entered <==> Reaches(Next(revs), head, x)
  {
    hide Walking, Accounted, Finished, Pushing, Reaches, OnCycle, SoundHistory, Distinct;
    var stack := [Frame(head, false)];
    var onPath: set<string>, done: set<string> := {}, {};
    var steps := 0;
    ghost var rank: map<string, nat> := map[];
    entered := [];
    Start(revs, head);
    while stack != []
      invariant Consistent(revs, head, stack, onPath, done, entered, rank)
      invariant steps == |entered| <= MAX_WALK
      decreases MAX_WALK - steps, |stack|
    {
      var top, rest := stack[|stack| - 1], stack[..|stack| - 1];
      assert stack == rest + [top];
      var h := top.rev;
      if top.exiting {
        Leave(revs, head, rest, h, onPath, done, entered, rank);
        rank := rank[h := |done|];
        stack, onPath, done := rest, onPath - {h}, done + {h};
        continue;
      }
      if h in done {
        Drop(revs, head, rest, h, onPath, done, entered, rank);
        stack := rest;
        continue;
      }
      NotOnPath(revs, head, rest, h, onPath, done, entered);
      EnteredAreReached(revs, head, stack, onPath, done, entered);
      steps := steps + 1;
      if steps > MAX_WALK {
        OneTooMany(revs, head, stack, onPath, done, entered, h);
        return TooLong, entered + [h];
      }
      if h !in revs {
        UnsoundAt(revs, head, h);
        return Missing(h), entered;
      }
      Enter(revs, head, rest, h, onPath, done, entered, rank);
      StartPushing(revs, rest, done, h);
      onPath, entered, stack := onPath + {h}, entered + [h], rest + [Frame(h, true)];
      ghost var m := |rest|;
      for k := 0 to |revs[h]|
        invariant Walking(revs, head, stack, onPath, done, entered)
        invariant Accounted(revs, stack, done, m) && Pushing(revs, stack, done, m, h, k)
      {
        var p := revs[h][k];
        if p in onPath {
          BackEdge(revs, head, stack, onPath, done, entered, m, h, k);
          EnteredAreReached(revs, head, stack, onPath, done, entered);
          UnsoundAt(revs, head, p);
          return Cycle(p), entered;
        }
        if p !in done {
          Push(revs, head, stack, onPath, done, entered, m, h, k);
          stack := stack + [Frame(p, false)];
        } else {
          SkipFinished(revs, stack, done, m, h, k);
        }
      }
      AllPushed(revs, stack, done, m, h);
    }
    NothingOnPath(revs, head, onPath, done, entered);
    EnteredAreReached(revs, head, [], onPath, done, entered);
    AllWalked(revs, head, done, entered, rank);
    r := Walked;
  }
}
