/** Reachability along a successor relation, the common yardstick of the graph walks. */
module Graphs {
  import opened Text

  type Successors<!T> = T -> set<T>

  ghost predicate IsPath<T>(next: Successors<T>, p: seq<T>) {
    p != [] && forall i :: 0 <= i < |p| - 1 ==> p[i + 1] in next(p[i])
  }

  ghost predicate PathBetween<T>(next: Successors<T>, p: seq<T>, a: T, b: T) {
    IsPath(next, p) && p[0] == a && p[|p| - 1] == b
  }

  ghost predicate Reaches<T(!new)>(next: Successors<T>, a: T, b: T) {
    exists p: seq<T> :: PathBetween(next, p, a, b)
  }

  /** `x` lies on a cycle. */
  ghost predicate OnCycle<T(!new)>(next: Successors<T>, x: T) {
    exists y :: y in next(x) && Reaches(next, y, x)
  }

  ghost predicate Closed<T(!new)>(next: Successors<T>, s: set<T>) {
    forall x, y :: x in s && y in next(x) ==> y in s
  }

  lemma ReachesSelf<T(!new)>(next: Successors<T>, a: T)
    ensures Reaches(next, a, a)
  {
    assert PathBetween(next, [a], a, a);
  }

  lemma ReachesStep<T(!new)>(next: Successors<T>, a: T, b: T, c: T)
    requires Reaches(next, a, b)
    requires c in next(b)
    ensures Reaches(next, a, c)
  {
    var p :| PathBetween(next, p, a, b);
    assert PathBetween(next, p + [c], a, c);
  }

  /** A closed set that contains the start contains everything reachable. */
  lemma ClosedContains<T(!new)>(next: Successors<T>, s: set<T>, a: T, b: T)
    requires Closed(next, s) && a in s
    requires Reaches(next, a, b)
    ensures b in s
  {
    var p :| PathBetween(next, p, a, b);
    PathStaysIn(next, s, p, |p| - 1);
  }

  lemma {:induction false} PathStaysIn<T(!new)>(next: Successors<T>, s: set<T>, p: seq<T>, i: nat)
    requires Closed(next, s)
    requires IsPath(next, p) && p[0] in s && i < |p|
    ensures p[i] in s
  {
    if i > 0 {
      PathStaysIn(next, s, p, i - 1);
    }
  }

  /** Something reachable other than by staying put is reached through a successor. */
  lemma FirstStep<T(!new)>(next: Successors<T>, a: T, b: T)
    requires Reaches(next, a, b)
    ensures a == b || exists y :: y in next(a) && Reaches(next, y, b)
  {
    var p :| PathBetween(next, p, a, b);
    if |p| > 1 {
      assert PathBetween(next, p[1..], p[1], b);
    }
  }

  /** A ranking that every step decreases rules out cycles. */
  lemma RankedReach<T(!new)>(next: Successors<T>, s: set<T>, rank: map<T, nat>, a: T, b: T)
    requires Closed(next, s) && s <= rank.Keys && a in s
    requires forall x, y :: x in s && y in next(x) ==> y in s && rank[y] < rank[x]
    requires Reaches(next, a, b)
    ensures b in s && rank[b] <= rank[a]
  {
    var p :| PathBetween(next, p, a, b);
    RankedPath(next, s, rank, p, |p| - 1);
  }

  lemma {:induction false} RankedPath<T(!new)>(next: Successors<T>, s: set<T>, rank: map<T, nat>, p: seq<T>, i: nat)
    requires Closed(next, s) && s <= rank.Keys
    requires forall x, y :: x in s && y in next(x) ==> y in s && rank[y] < rank[x]
    requires IsPath(next, p) && p[0] in s && i < |p|
    ensures p[i] in s && rank[p[i]] <= rank[p[0]]
  {
    if i > 0 {
      RankedPath(next, s, rank, p, i - 1);
      assert p[i] in next(p[i - 1]);
    }
  }

  lemma RankedAcyclic<T(!new)>(next: Successors<T>, s: set<T>, rank: map<T, nat>)
    requires Closed(next, s) && s <= rank.Keys
    requires forall x, y :: x in s && y in next(x) ==> y in s && rank[y] < rank[x]
    ensures forall x :: x in s ==> !OnCycle(next, x)
  {
    forall x | x in s ensures !OnCycle(next, x) {
      forall y | y in next(x) ensures !Reaches(next, y, x) {
        if Reaches(next, y, x) {
          RankedReach(next, s, rank, y, x);
          assert false;
        }
      }
    }
  }

  /** A step back to where a path started closes a cycle. */
  lemma StepBack<T(!new)>(next: Successors<T>, a: T, b: T)
    requires Reaches(next, a, b) && a in next(b)
    ensures OnCycle(next, a)
  {
    FirstStep(next, a, b);
    if a == b {
      ReachesSelf(next, a);
    } else {
      var y :| y in next(a) && Reaches(next, y, b);
      ReachesStep(next, y, b, a);
    }
  }

  lemma PathInside<T(!new)>(next: Successors<T>, p: seq<T>, i: nat)
    requires IsPath(next, p) && i < |p|
    ensures Reaches(next, p[0], p[i]) && Reaches(next, p[i], p[|p| - 1])
  {
    assert PathBetween(next, p[..i + 1], p[0], p[i]);
    assert PathBetween(next, p[i..], p[i], p[|p| - 1]);
  }

  /** Every member has a successor in the set. */
  ghost predicate Endless<T(!new)>(next: Successors<T>, s: set<T>) {
    forall n :: n in s ==> next(n) * s != {}
  }

  lemma LongerPath<T>(next: Successors<T>, path: seq<T>, t: T)
    requires IsPath(next, path) && Distinct(path) && t !in path && t in next(path[|path| - 1])
    ensures IsPath(next, path + [t]) && Distinct(path + [t])
  {
  }

  /** In a finite set each of whose members has a successor in it, every path can be followed to a cycle. */
  lemma {:induction false} EndlessPath<T(!new)>(next: Successors<T>, s: set<T>, path: seq<T>) returns (x: T)
    requires Endless(next, s)
    requires IsPath(next, path) && Distinct(path) && forall n :: n in path ==> n in s
    ensures Reaches(next, path[0], x) && OnCycle(next, x)
    decreases |s| - |path|
  {
    var last := path[|path| - 1];
    assert last in path && next(last) * s != {};
    hide Endless, Reaches, OnCycle;
    var t :| t in next(last) * s;
    if t in path {
      var i :| 0 <= i < |path| && path[i] == t;
      PathInside(next, path, i);
      StepBack(next, t, last);
      x := t;
    } else {
      LongerPath(next, path, t);
      var longer := path + [t];
      DistinctFits(longer, s);
      x := EndlessPath(next, s, longer);
      assert longer[0] == path[0];
    }
  }
}
