/**
 * The linter's acyclicity pass over one taxonomy (crates/allod-lint/src/main.rs:624-668): a recursive
 * depth-first search with three colours. A term without a colour is white.
 */
module TaxonomyLint {
  import opened Graphs
  import opened Text

  /** Each local term's parents, as listed. */
  type Terms = map<string, seq<string>>

  /** The local parent relation: parents the taxonomy does not declare are skipped. */
  function Next(local: Terms): Successors<string> {
    x => if x in local then set p | p in local[x] && p in local else {}
  }

  const GREY := 1
  const BLACK := 2

  /** A chain of parents that comes back to one of its terms: what an error message prints. */
  ghost predicate ClosesCycle(local: Terms, chain: seq<string>) {
    IsPath(Next(local), chain) && chain[|chain| - 1] in chain[..|chain| - 1]
  }

  lemma ChainIsCycle(local: Terms, chain: seq<string>)
    requires ClosesCycle(local, chain)
    ensures OnCycle(Next(local), chain[|chain| - 1])
  {
    var n := |chain| - 1;
    var i :| 0 <= i < n && chain[i] == chain[n];
    assert PathBetween(Next(local), chain[i + 1..], chain[i + 1], chain[n]);
  }

  ghost predicate IsBlack(color: map<string, nat>, x: string) {
    x in color && color[x] == BLACK
  }

  /** Black terms are ranked in the order they were finished, after all their parents. */
  ghost predicate Ranked(local: Terms, color: map<string, nat>, rank: map<string, nat>) {
    && (forall x :: x in rank <==> IsBlack(color, x))
    && (forall x :: x in rank ==> rank[x] < |rank|)
    && (forall x, p :: x in rank && p in Next(local)(x) ==> p in rank && rank[p] < rank[x])
  }

  lemma BlackOneMore(color: map<string, nat>, node: string)
    ensures forall x :: IsBlack(color[node := BLACK], x) <==> IsBlack(color, x) || x == node
    ensures node !in color ==> forall x :: IsBlack(color[node := GREY], x) <==> IsBlack(color, x)
  {
  }

  lemma RankOneMore(local: Terms, color: map<string, nat>, rank: map<string, nat>, node: string)
    requires Ranked(local, color, rank) && !IsBlack(color, node)
    requires forall p :: p in Next(local)(node) ==> IsBlack(color, p)
    ensures Ranked(local, color[node := BLACK], rank[node := |rank|])
  {
    hide Next, IsBlack;
    BlackOneMore(color, node);
    OneMoreKey(rank, node);
    var r := rank[node := |rank|];
    forall x, p | x in r && p in Next(local)(x) ensures p in r && r[p] < r[x] {
      if x == node {
        assert IsBlack(color, p);
      }
    }
  }

  lemma AllBlackIsAcyclic(local: Terms, color: map<string, nat>, rank: map<string, nat>)
    requires Ranked(local, color, rank) && forall x :: x in local ==> IsBlack(color, x)
    ensures forall x :: x in local ==> !OnCycle(Next(local), x)
  {
    RankedAcyclic(Next(local), rank.Keys, rank);
  }

  /** The grey terms are the stack, which is a path; every error is a cycle; without one, black terms are ranked. */
  ghost predicate Sound(local: Terms, color: map<string, nat>, stack: seq<string>, errors: seq<seq<string>>, rank: map<string, nat>, visited: seq<string>) {
    && color.Keys <= local.Keys
    && (forall x :: x in color ==> color[x] in {GREY, BLACK})
    && (forall x :: x in stack <==> x in color && color[x] == GREY)
    && Distinct(stack) && (stack != [] ==> IsPath(Next(local), stack))
    && (forall e :: e in errors ==> ClosesCycle(local, e))
    && (errors == [] ==> Ranked(local, color, rank))
    && Distinct(visited) && forall x :: x in visited <==> x in color
  }

  /** Colours only darken, and what was white before and is not now is black. */
  ghost predicate Darkens(before: map<string, nat>, color: map<string, nat>) {
    && (forall x :: x in before ==> x in color && color[x] == before[x])
    && (forall x :: x in color && x !in before ==> color[x] == BLACK)
  }

  lemma Entered(local: Terms, color: map<string, nat>, stack: seq<string>, errors: seq<seq<string>>, rank: map<string, nat>, visited: seq<string>, node: string)
    requires Sound(local, color, stack, errors, rank, visited)
    requires node in local && node !in color
    requires stack != [] ==> node in Next(local)(stack[|stack| - 1])
    ensures Sound(local, color[node := GREY], stack + [node], errors, rank, visited + [node])
    ensures local.Keys - color[node := GREY].Keys < local.Keys - color.Keys
  {
    hide ClosesCycle, Next, IsBlack;
    BlackOneMore(color, node);
    assert errors == [] ==> Ranked(local, color[node := GREY], rank);
    hide Ranked;
    assert node in local.Keys - color.Keys && node !in local.Keys - color[node := GREY].Keys;
  }

  lemma Reported(local: Terms, color: map<string, nat>, stack: seq<string>, errors: seq<seq<string>>, rank: map<string, nat>, visited: seq<string>, parent: string)
    requires Sound(local, color, stack, errors, rank, visited)
    requires stack != [] && parent in Next(local)(stack[|stack| - 1])
    requires parent in color && color[parent] == GREY
    ensures Sound(local, color, stack, errors + [stack + [parent]], rank, visited)
  {
    hide Next, Ranked;
    var chain := stack + [parent];
    assert chain[..|chain| - 1] == stack;
    assert ClosesCycle(local, chain);
  }

  lemma Left(local: Terms, color: map<string, nat>, stack: seq<string>, errors: seq<seq<string>>, rank: map<string, nat>, visited: seq<string>, node: string)
    requires Sound(local, color, stack + [node], errors, rank, visited)
    requires errors == [] ==> forall p :: p in local[node] && p in local ==> IsBlack(color, p)
    ensures Sound(local, color[node := BLACK], stack, errors, rank[node := |rank|], visited)
  {
    var was := stack + [node];
    assert was[|stack|] == node && node in was;
    forall i | 0 <= i < |stack| ensures was[i] == stack[i] && stack[i] != node {
      assert was[i] != was[|stack|];
    }
    if errors == [] {
      RankOneMore(local, color, rank, node);
    }
    hide Ranked, ClosesCycle, Next, IsBlack;
    forall x ensures x in stack <==> x in was && x != node {
    }
    if stack != [] {
      PathInit(Next(local), stack, node);
    }
  }

  lemma PathInit(next: Successors<string>, stack: seq<string>, node: string)
    requires IsPath(next, stack + [node]) && stack != []
    ensures IsPath(next, stack)
  {
    var was := stack + [node];
    forall i | 0 <= i < |stack| - 1 ensures stack[i + 1] in next(stack[i]) {
      assert was[i + 1] in next(was[i]);
    }
  }

  class Linter {
    var color: map<string, nat>
    var stack: seq<string>
    var errors: seq<seq<string>>
    ghost var rank: map<string, nat>
    ghost var visited: seq<string>

    constructor ()
      ensures color == map[] && stack == [] && errors == [] && rank == map[] && visited == []
    {
      color, stack, errors, rank, visited := map[], [], [], map[], [];
    }

    ghost predicate Valid(local: Terms)
      reads this
    {
      Sound(local, color, stack, errors, rank, visited)
    }

    /** The node and every parent below it that was still white are finished; the stack is as it was. */
    method VisitTerm(local: Terms, node: string)
      requires Valid(local) && node in local && node !in color
      requires stack != [] ==> node in Next(local)(stack[|stack| - 1])
      modifies this
      ensures Valid(local) && stack == old(stack) && Darkens(old(color), color) && node in color
      ensures old(errors) <= errors && old(visited) + [node] <= visited
      decreases local.Keys - color.Keys
    {
      hide Sound, Next, Darkens, IsBlack;
      Entered(local, color, stack, errors, rank, visited, node);
      color, stack := color[node := GREY], stack + [node];
      visited := visited + [node];
      label entered:
      Unchanged(color);
      assert local.Keys - color.Keys < local.Keys - old(color).Keys;
      var parents := local[node];
      for k := 0 to |parents|
        invariant Valid(local) && stack == old(stack) + [node] && Darkens(old@entered(color), color)
        invariant old(errors) <= errors && old(visited) + [node] <= visited
        invariant errors == [] ==> forall p :: p in parents[..k] && p in local ==> IsBlack(color, p)
      {
        var parent := parents[k];
        assert parents[..k + 1] == parents[..k] + [parent];
        assert parent in local ==> parent in Next(local)(node) by {
          NextIs(local, node, parent);
        }
        Coloured(local, color, stack, errors, rank, visited);
        if parent in local {
          if parent !in color {
            ghost var before := color;
            FewerLeft(local, old@entered(color), color);
            VisitTerm(local, parent);
            StillDark(old@entered(color), before, color, parent);
          } else if color[parent] == GREY {
            Reported(local, color, stack, errors, rank, visited, parent);
            errors := errors + [stack + [parent]];
          }
        }
      }
      assert parents[..|parents|] == parents;
      Left(local, color, old(stack), errors, rank, visited, node);
      Blackened(old(color), color, node);
      rank := rank[node := |rank|];
      stack := stack[..|stack| - 1];
      color := color[node := BLACK];
    }
  }

  lemma FewerLeft(local: Terms, before: map<string, nat>, color: map<string, nat>)
    requires Darkens(before, color)
    ensures local.Keys - color.Keys <= local.Keys - before.Keys
  {
  }

  lemma Unchanged(color: map<string, nat>)
    ensures Darkens(color, color)
  {
  }

  lemma StillDark(first: map<string, nat>, before: map<string, nat>, color: map<string, nat>, parent: string)
    requires Darkens(first, before) && Darkens(before, color) && parent !in before && parent in color
    ensures Darkens(first, color) && IsBlack(color, parent)
    ensures forall x :: IsBlack(before, x) ==> IsBlack(color, x)
  {
  }

  lemma Blackened(before: map<string, nat>, color: map<string, nat>, node: string)
    requires node !in before && Darkens(before[node := GREY], color)
    ensures Darkens(before, color[node := BLACK])
  {
  }

  lemma NextIs(local: Terms, node: string, parent: string)
    requires node in local
    ensures parent in Next(local)(node) <==> parent in local[node] && parent in local
  {
  }

  lemma Coloured(local: Terms, color: map<string, nat>, stack: seq<string>, errors: seq<seq<string>>, rank: map<string, nat>, visited: seq<string>)
    requires Sound(local, color, stack, errors, rank, visited)
    ensures color.Keys <= local.Keys && forall x :: x in color ==> color[x] == GREY || IsBlack(color, x)
  {
  }

  lemma WhatIsReported(local: Terms, color: map<string, nat>, errors: seq<seq<string>>, rank: map<string, nat>, visited: seq<string>)
    requires Sound(local, color, [], errors, rank, visited) && color.Keys == local.Keys
    ensures errors != [] <==> exists x :: x in local && OnCycle(Next(local), x)
    ensures forall e :: e in errors ==> ClosesCycle(local, e) && OnCycle(Next(local), e[|e| - 1])
    ensures Distinct(visited) && forall x :: x in visited <==> x in local
  {
    assert forall x :: x in local ==> IsBlack(color, x);
    if errors == [] {
      AllBlackIsAcyclic(local, color, rank);
    } else {
      var e := errors[0];
      assert e in errors;
      ChainIsCycle(local, e);
      assert e[|e| - 1] in local by {
        assert e[|e| - 1] in Next(local)(e[|e| - 2]);
      }
    }
    hide Sound, OnCycle;
    forall e | e in errors ensures ClosesCycle(local, e) && OnCycle(Next(local), e[|e| - 1]) {
      ChainIsCycle(local, e);
    }
  }

  /**
   * The pass over all terms, in whatever order the hash map lists them: errors are reported exactly
   * when the local parent relation has a cycle, every reported chain ends in one, and every term
   * leaves white exactly once.
   */
  method CheckAcyclic(local: Terms, names: seq<string>) returns (errors: seq<seq<string>>, ghost visited: seq<string>)
    requires forall x :: x in names <==> x in local
    ensures errors != [] <==> exists x :: x in local && OnCycle(Next(local), x)
    ensures forall e :: e in errors ==> ClosesCycle(local, e) && OnCycle(Next(local), e[|e| - 1])
    ensures Distinct(visited) && forall x :: x in visited <==> x in local
  {
    var linter := new Linter();
    for i := 0 to |names|
      invariant linter.Valid(local) && linter.stack == []
      invariant forall x :: x in names[..i] ==> x in linter.color
    {
      assert names[..i + 1] == names[..i] + [names[i]];
      hide Sound, Next;
      if names[i] !in linter.color {
        linter.VisitTerm(local, names[i]);
      }
    }
    assert names[..|names|] == names;
    Coloured(local, linter.color, [], linter.errors, linter.rank, linter.visited);
    hide Sound, OnCycle, ClosesCycle;
    errors, visited := linter.errors, linter.visited;
    WhatIsReported(local, linter.color, errors, linter.rank, visited);
  }
}
