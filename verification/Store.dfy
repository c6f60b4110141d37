/**
 * The changeset log and its walk from HEAD to genesis (crates/allod-core/src/store.rs:410-625).
 * Documents read back as they were written; the store's own failures are not modelled.
 */
module Store {
  import opened Text
  import opened Values
  import opened Objects
  import opened Registries
  import opened Meta
  import opened Fold
  import opened Replay
  import FoldInvariant

  /** Documents are filed under the hash without its algorithm prefix. */
  function Short(hash: string): string {
    StripPrefix(hash, "sha256:").GetOr(hash)
  }

  function FirstParent(cs: Value): Option<string> {
    var parents := Strings(GetSeq(cs, "parents").GetOr([]));
    if parents == [] then None else Some(parents[0])
  }

  /** The walk from `cursor` back to genesis in at most `fuel` documents; None when that is not enough. */
  function Walk(log: map<string, Value>, cursor: string, fuel: nat): Option<Result<seq<Value>>>
    decreases fuel
  {
    if fuel == 0 then None
    else if Short(cursor) !in log then Some(Err("changeset not found"))
    else
      var cs := log[Short(cursor)];
      match FirstParent(cs)
      case None => Some(Ok([cs]))
      case Some(parent) =>
        match Walk(log, parent, fuel - 1)
        case None => None
        case Some(Err(e)) => Some(Err(e))
        case Some(Ok(older)) => Some(Ok(older + [cs]))
  }

  lemma {:induction false} WalkSettles(log: map<string, Value>, cursor: string, n: nat, m: nat)
    requires n <= m && Walk(log, cursor, n).Some?
    ensures Walk(log, cursor, m) == Walk(log, cursor, n)
    decreases n
  {
    if Short(cursor) in log && FirstParent(log[Short(cursor)]).Some? {
      WalkSettles(log, FirstParent(log[Short(cursor)]).value, n - 1, m - 1);
    }
  }

  /** The parent links from `head` end. */
  ghost predicate Ends(log: map<string, Value>, head: Option<string>) {
    head.Some? ==> exists n: nat :: Walk(log, head.value, n).Some?
  }

  ghost function Steps(log: map<string, Value>, head: string): nat
    requires Ends(log, Some(head))
    ensures Walk(log, head, Steps(log, head)).Some?
  {
    var n: nat :| Walk(log, head, n).Some?;
    n
  }

  /** The chain from genesis to HEAD, in application order. */
  ghost function ChainOf(log: map<string, Value>, head: Option<string>): Result<seq<Value>>
    requires Ends(log, head)
  {
    match head
    case None => Ok([])
    case Some(h) => Walk(log, h, Steps(log, h)).value
  }

  lemma ChainIsWalk(log: map<string, Value>, head: string, n: nat)
    requires Walk(log, head, n).Some?
    ensures Ends(log, Some(head)) && ChainOf(log, Some(head)) == Walk(log, head, n).value
  {
    assert Ends(log, Some(head));
    var m := Steps(log, head);
    if m <= n {
      WalkSettles(log, head, m, n);
    } else {
      WalkSettles(log, head, n, m);
    }
  }

  function Reversed<T>(s: seq<T>): (r: seq<T>)
    ensures |r| == |s|
  {
    if s == [] then [] else Reversed(s[1..]) + [s[0]]
  }

  lemma {:induction false} ReversedSnoc<T>(s: seq<T>, x: T)
    ensures Reversed(s + [x]) == [x] + Reversed(s)
  {
    if s == [] {
      assert [] + [x] == [x] && [x][1..] == [];
    } else {
      ReversedSnoc(s[1..], x);
      assert (s + [x])[1..] == s[1..] + [x];
    }
  }

  /** A walk that still has `rest` to read, with `newer` already read newest first. */
  ghost function Resumed(rest: Option<Result<seq<Value>>>, newer: seq<Value>): Option<Result<seq<Value>>> {
    match rest
    case Some(Ok(older)) => Some(Ok(older + Reversed(newer)))
    case _ => rest
  }

  lemma ResumeNext(log: map<string, Value>, cursor: string, fuel: nat, newer: seq<Value>, parent: string)
    requires fuel > 0 && Short(cursor) in log && FirstParent(log[Short(cursor)]) == Some(parent)
    ensures Resumed(Walk(log, cursor, fuel), newer) == Resumed(Walk(log, parent, fuel - 1), newer + [log[Short(cursor)]])
  {
    var cs := log[Short(cursor)];
    ReversedSnoc(newer, cs);
    var w := Walk(log, parent, fuel - 1);
    if w.Some? && w.value.Ok? {
      Append(w.value.value, [cs], Reversed(newer));
    }
  }

  datatype Evidence = Evidence(decisions: seq<Value>, envelopes: seq<Value>)

  /** A graph's stored documents. */
  class Graph {
    var log: map<string, Value>
    var evidence: map<string, Evidence>
    var head: Option<string>
    var proposals: map<string, Value>
    var pending: map<string, Evidence>

    constructor ()
      ensures log == map[] && evidence == map[] && head == None && proposals == map[] && pending == map[]
    {
      log, evidence, head, proposals, pending := map[], map[], None, map[], map[];
    }

    method AppendChangeset(cs: Value, hash: string, e: Evidence)
      modifies this
      ensures log == old(log)[Short(hash) := cs]
      ensures evidence == old(evidence)[Short(hash) := e]
      ensures head == Some(hash)
      ensures proposals == old(proposals) && pending == old(pending)
    {
      log := log[Short(hash) := cs];
      evidence := evidence[Short(hash) := e];
      head := Some(hash);
    }

    method WriteProposal(cs: Value, hash: string, e: Evidence)
      modifies this`proposals, this`pending
      ensures proposals == old(proposals)[Short(hash) := cs]
      ensures pending == old(pending)[Short(hash) := e]
    {
      proposals := proposals[Short(hash) := cs];
      pending := pending[Short(hash) := e];
    }

    method RemoveProposal(hash: string)
      modifies this`proposals, this`pending
      ensures proposals == old(proposals) - {Short(hash)}
      ensures pending == old(pending) - {Short(hash)}
    {
      proposals := proposals - {Short(hash)};
      pending := pending - {Short(hash)};
    }

    method Chain() returns (r: Result<seq<Value>>)
      requires Ends(log, head)
      ensures r == ChainOf(log, head)
    {
      if head.None? {
        return Ok([]);
      }
      var cursor, chain := head.value, [];
      ghost var fuel := Steps(log, head.value);
      assert Resumed(Walk(log, cursor, fuel), []) == Walk(log, cursor, fuel) by {
        var w := Walk(log, cursor, fuel);
        assert w.Some? && w.value.Ok? ==> w.value.value + [] == w.value.value;
      }
      while true
        invariant Walk(log, cursor, fuel).Some?
        invariant Resumed(Walk(log, cursor, fuel), chain) == Some(ChainOf(log, head))
        decreases fuel
      {
        if Short(cursor) !in log {
          return Err("changeset not found");
        }
        var cs := log[Short(cursor)];
        ghost var before := chain;
        chain := chain + [cs];
        match FirstParent(cs) {
          case Some(parent) =>
            ResumeNext(log, cursor, fuel, before, parent);
            cursor := parent;
            fuel := fuel - 1;
          case None =>
            ReversedSnoc(before, cs);
            break;
        }
      }
      r := Ok(Reversed(chain));
    }

    /** Fold the chain up to and including `stop`, or all of it. */
    method FoldTo(env: Env, stop: Option<string>) returns (r: Result<Objects>)
      requires Ends(log, head)
      ensures r == Folded(env, log, head, stop)
    {
      var chain := Chain();
      if chain.Err? {
        return Err(chain.error);
      }
      r := FoldChain(env, chain.value, stop);
    }
  }

  /** What `fold_to` returns for a log and a tip. */
  ghost function Folded(env: Env, log: map<string, Value>, head: Option<string>, stop: Option<string>): Result<Objects>
    requires Ends(log, head)
  {
    var chain :- ChainOf(log, head);
    CachedUpTo(env, map[], true, None, chain, stop)
  }

  /** Every state the store can be folded to, the whole log or part of it, keeps the invariant. */
  lemma FoldedKeepsInv(env: Env, log: map<string, Value>, head: Option<string>, stop: Option<string>)
    requires Ends(log, head) && Folded(env, log, head, stop).Ok?
    ensures FoldInvariant.Inv(env.sha, Folded(env, log, head, stop).value)
  {
    CachedKeepsInv(env, map[], true, None, ChainOf(log, head).value, stop);
  }

  // ---------------------------------------------------------------- appending

  /** Filing a changeset under a fresh name does not disturb a walk that does not need it. */
  lemma {:induction false} WalkUndisturbed(log: map<string, Value>, cursor: string, fuel: nat, name: string, cs: Value)
    requires name !in log
    requires Walk(log, cursor, fuel).Some? && Walk(log, cursor, fuel).value.Ok?
    ensures Walk(log[name := cs], cursor, fuel) == Walk(log, cursor, fuel)
    decreases fuel
  {
    if FirstParent(log[Short(cursor)]).Some? {
      WalkUndisturbed(log, FirstParent(log[Short(cursor)]).value, fuel - 1, name, cs);
    }
  }

  /** Appending a fresh changeset whose parent is the tip extends the chain by it. */
  lemma AppendExtendsChain(log: map<string, Value>, head: Option<string>, cs: Value, hash: string)
    requires Ends(log, head) && ChainOf(log, head).Ok?
    requires Short(hash) !in log
    requires FirstParent(cs) == head
    ensures Ends(log[Short(hash) := cs], Some(hash))
    ensures ChainOf(log[Short(hash) := cs], Some(hash)) == Ok(ChainOf(log, head).value + [cs])
  {
    var log' := log[Short(hash) := cs];
    match head {
      case None =>
        assert Walk(log', hash, 1) == Some(Ok([cs]));
        ChainIsWalk(log', hash, 1);
        assert [] + [cs] == [cs];
      case Some(h) =>
        var n := Steps(log, h);
        WalkUndisturbed(log, h, n, Short(hash), cs);
        assert Walk(log', hash, n + 1) == Some(Ok(ChainOf(log, head).value + [cs]));
        ChainIsWalk(log', hash, n + 1);
    }
  }

  // ---------------------------------------------------------------- appending anything else

  /** Every document is filed under the hash it states. */
  ghost predicate FiledByHash(log: map<string, Value>) {
    forall n :: n in log ==> GetStr(log[n], "hash").Some? && Short(GetStr(log[n], "hash").value) == n
  }

  /** The two name the same document, or both name none: what a caller can compare before it appends. */
  predicate SameTip(parent: Option<string>, head: Option<string>) {
    match (parent, head)
    case (None, None) => true
    case (Some(p), Some(h)) => Short(p) == Short(h)
    case _ => false
  }

  lemma {:induction false} WalkByName(log: map<string, Value>, a: string, b: string, n: nat)
    requires Short(a) == Short(b)
    ensures Walk(log, a, n) == Walk(log, b, n)
  {
  }

  /** A walk ends with the document it starts from. */
  lemma WalkEndsAt(log: map<string, Value>, cursor: string, n: nat)
    requires Walk(log, cursor, n).Some? && Walk(log, cursor, n).value.Ok?
    ensures Short(cursor) in log
    ensures var chain := Walk(log, cursor, n).value.value; chain != [] && chain[|chain| - 1] == log[Short(cursor)]
  {
  }

  /** The chain after an append is the chain of the parent and then the changeset. */
  lemma AppendStep(log: map<string, Value>, hash: string, older: seq<Value>)
    requires Short(hash) in log && FirstParent(log[Short(hash)]).Some?
    requires Ends(log, Some(hash)) && ChainOf(log, Some(hash)) == Ok(older + [log[Short(hash)]])
    ensures var p := FirstParent(log[Short(hash)]).value; exists n: nat :: Walk(log, p, n) == Some(Ok(older))
  {
    var n := Steps(log, hash);
    var p := FirstParent(log[Short(hash)]).value;
    var w := Walk(log, p, n - 1);
    assert w.Some? && w.value.Ok? && w.value.value + [log[Short(hash)]] == older + [log[Short(hash)]];
    assert w.value.value == (w.value.value + [log[Short(hash)]])[..|w.value.value|];
    assert older == (older + [log[Short(hash)]])[..|older|];
    assert |w.value.value| == |older|;
    assert Walk(log, p, n - 1) == Some(Ok(older));
  }

  /** When the new chain is the old one and the changeset, the parent names the document HEAD names. */
  lemma ExtendsOnlyFromTip(log: map<string, Value>, head: Option<string>, cs: Value, hash: string)
    requires Ends(log, head) && ChainOf(log, head).Ok? && FiledByHash(log) && Short(hash) !in log
    requires Ends(log[Short(hash) := cs], Some(hash))
    requires ChainOf(log[Short(hash) := cs], Some(hash)) == Ok(ChainOf(log, head).value + [cs])
    ensures SameTip(FirstParent(cs), head)
  {
    hide Short;
    var log', before := log[Short(hash) := cs], ChainOf(log, head).value;
    if head.Some? {
      WalkEndsAt(log, head.value, Steps(log, head.value));
    }
    match FirstParent(cs) {
      case None =>
        assert Walk(log', hash, 1) == Some(Ok([cs]));
        ChainIsWalk(log', hash, 1);
        assert |before + [cs]| == 1;
      case Some(p) =>
        AppendStep(log', hash, before);
        var n: nat :| Walk(log', p, n) == Some(Ok(before));
        WalkEndsAt(log', p, n);
        if Short(p) == Short(hash) {
          WalkByName(log', p, hash, n);
          ChainIsWalk(log', hash, n);
          assert false;
        }
    }
  }

  /**
   * In a log filed by hash, appending a changeset extends the chain by it if and only if its parent
   * names the document HEAD names; a changeset without a parent extends only the empty chain.
   */
  lemma ExtendsExactly(log: map<string, Value>, head: Option<string>, cs: Value, hash: string)
    requires Ends(log, head) && ChainOf(log, head).Ok? && FiledByHash(log) && Short(hash) !in log
    ensures (Ends(log[Short(hash) := cs], Some(hash)) && ChainOf(log[Short(hash) := cs], Some(hash)) == Ok(ChainOf(log, head).value + [cs]))
            <==> SameTip(FirstParent(cs), head)
  {
    hide FiledByHash, ChainOf, Ends;
    if SameTip(FirstParent(cs), head) {
      SameTipSameChain(log, FirstParent(cs), head);
      AppendExtendsChain(log, FirstParent(cs), cs, hash);
    } else if Ends(log[Short(hash) := cs], Some(hash)) && ChainOf(log[Short(hash) := cs], Some(hash)) == Ok(ChainOf(log, head).value + [cs]) {
      ExtendsOnlyFromTip(log, head, cs, hash);
      assert false;
    }
  }

  lemma SameTipSameChain(log: map<string, Value>, parent: Option<string>, head: Option<string>)
    requires Ends(log, head) && SameTip(parent, head)
    ensures Ends(log, parent) && ChainOf(log, parent) == ChainOf(log, head)
  {
    if head.Some? {
      var n := Steps(log, head.value);
      WalkByName(log, parent.value, head.value, n);
      ChainIsWalk(log, parent.value, n);
    }
  }
}
