/**
 * Package hashes with imports filled in, in dependency order (crates/allod-vectors/src/main.rs:93-140).
 */
module PackageHashes {
  import opened Graphs
  import opened Text
  import opened Values
  import opened Hashing

  type Docs = map<string, Value>

  type Hashes = map<string, string>

  function PackageHash(sha: Sha, doc: Value): string {
    HashValue(sha, "package", doc)
  }

  function Targets(imports: seq<Value>): (r: seq<string>)
    ensures forall x :: x in r <==> exists imp :: imp in imports && GetStr(imp, "ontology") == Some(x)
  {
    if imports == [] then []
    else
      var rest := Targets(imports[1..]);
      assert imports == [imports[0]] + imports[1..];
      assert imports[0] in imports;
      match GetStr(imports[0], "ontology")
      case Some(t) => [t] + rest
      case None => rest
  }

  /** The ontologies a package imports. */
  function Imports(doc: Value): seq<string> {
    Targets(GetSeq(doc, "imports").GetOr([]))
  }

  function Next(docs: Docs): Successors<string> {
    n => if n in docs then set t | t in Imports(docs[n]) else {}
  }

  /** The program indexes the hashes with every import mapping's ontology, and panics without one. */
  predicate NamesImports(doc: Value) {
    forall imp | imp in GetSeq(doc, "imports").GetOr([]) :: imp.Map? ==> GetStr(imp, "ontology").Some?
  }

  function FillImport(imp: Value, hashes: Hashes): Value {
    if imp.Map? then Map(imp.m["state_hash" := Str(HashFor(hashes, GetStr(imp, "ontology").GetOr("")))]) else imp
  }

  function HashFor(hashes: Hashes, name: string): string {
    if name in hashes then hashes[name] else ""
  }

  /** The document with its imports' hashes filled in. */
  function Fill(doc: Value, hashes: Hashes): Value {
    match GetSeq(doc, "imports")
    case None => doc
    case Some(imports) =>
      Map(doc.m["imports" := Seq(seq(|imports|, i requires 0 <= i < |imports| => FillImport(imports[i], hashes)))])
  }

  /** Only the hashes of the imports matter. */
  lemma FillAgrees(doc: Value, g: Hashes, h: Hashes)
    requires NamesImports(doc)
    requires forall t :: t in Imports(doc) ==> t in g && t in h && g[t] == h[t]
    ensures Fill(doc, g) == Fill(doc, h)
  {
    if GetSeq(doc, "imports").Some? {
      var imports := GetSeq(doc, "imports").value;
      forall i | 0 <= i < |imports| ensures FillImport(imports[i], g) == FillImport(imports[i], h) {
        if imports[i].Map? {
          var t := GetStr(imports[i], "ontology").value;
          assert imports[i] in imports && t in Imports(doc);
        }
      }
      assert seq(|imports|, i requires 0 <= i < |imports| => FillImport(imports[i], g))
          == seq(|imports|, i requires 0 <= i < |imports| => FillImport(imports[i], h));
    }
  }

  // ---------------------------------------------------------------- the fixed point

  /** Each hash is that of the document with its imports' hashes filled in. */
  ghost predicate Settled(sha: Sha, docs: Docs, hashes: Hashes) {
    && hashes.Keys <= docs.Keys
    && forall n :: n in hashes ==>
         (forall t :: t in Imports(docs[n]) ==> t in hashes) && hashes[n] == PackageHash(sha, Fill(docs[n], hashes))
  }

  ghost predicate IsFixedPoint(sha: Sha, docs: Docs, hashes: Hashes) {
    Settled(sha, docs, hashes) && hashes.Keys == docs.Keys
  }

  ghost predicate Loaded(docs: Docs, n: string) {
    forall x :: Reaches(Next(docs), n, x) ==> x in docs
  }

  /** Every package it depends on is loaded, and none of them is on an import cycle. */
  ghost predicate Grounded(docs: Docs, n: string) {
    forall x :: Reaches(Next(docs), n, x) ==> x in docs && !OnCycle(Next(docs), x)
  }

  /** Hashed packages in the order they were hashed, imports first. */
  ghost predicate Ordered(docs: Docs, hashes: Hashes, rank: map<string, nat>) {
    && rank.Keys == hashes.Keys && rank.Keys <= docs.Keys
    && (forall n :: n in rank ==> rank[n] < |rank|)
    && forall n, t :: n in rank && t in Imports(docs[n]) ==> t in rank && rank[t] < rank[n]
  }

  /** One import with the hash of the ontology it names; what is no mapping is left alone. */
  ghost predicate Pinned(imp: Value, hashes: Hashes, pinned: Value) {
    if imp.Map? then
      && GetStr(imp, "ontology").Some? && GetStr(imp, "ontology").value in hashes
      && pinned.Map? && Get(pinned, "state_hash") == Some(Str(hashes[GetStr(imp, "ontology").value]))
      && forall k :: k != "state_hash" ==> Get(pinned, k) == Get(imp, k)
    else pinned == imp
  }

  /** The document with every import pinned and nothing else changed. */
  ghost predicate PinnedDoc(doc: Value, hashes: Hashes, pinned: Value) {
    if GetSeq(doc, "imports").None? then pinned == doc
    else
      && pinned.Map? && GetSeq(pinned, "imports").Some?
      && (forall k :: k != "imports" ==> Get(pinned, k) == Get(doc, k))
      && var (before, after) := (GetSeq(doc, "imports").value, GetSeq(pinned, "imports").value);
         |before| == |after| && forall i :: 0 <= i < |before| ==> Pinned(before[i], hashes, after[i])
  }

  lemma FillPins(imp: Value, hashes: Hashes, pinned: Value)
    requires imp.Map? ==> GetStr(imp, "ontology").Some? && GetStr(imp, "ontology").value in hashes
    ensures Pinned(imp, hashes, pinned) <==> pinned == FillImport(imp, hashes)
  {
    if imp.Map? && Pinned(imp, hashes, pinned) {
      var m := imp.m["state_hash" := Str(hashes[GetStr(imp, "ontology").value])];
      assert forall k :: Get(pinned, k) == Get(Map(m), k);
      SameFields(pinned.m, m);
    }
  }

  lemma FillPinsDoc(doc: Value, hashes: Hashes, pinned: Value)
    requires NamesImports(doc) && Ready(doc, hashes)
    ensures PinnedDoc(doc, hashes, pinned) <==> pinned == Fill(doc, hashes)
  {
    if GetSeq(doc, "imports").Some? {
      var imports, filled := GetSeq(doc, "imports").value, Fill(doc, hashes);
      forall i, v | 0 <= i < |imports| ensures Pinned(imports[i], hashes, v) <==> v == FillImport(imports[i], hashes) {
        assert imports[i] in imports;
        if imports[i].Map? {
          assert GetStr(imports[i], "ontology").value in Imports(doc);
        }
        FillPins(imports[i], hashes, v);
      }
      hide Pinned, FillImport, Imports, NamesImports;
      if PinnedDoc(doc, hashes, pinned) {
        assert GetSeq(pinned, "imports").value == GetSeq(filled, "imports").value;
        assert forall k :: Get(pinned, k) == Get(filled, k);
        SameFields(pinned.m, filled.m);
      }
    }
  }

  /** A package imports what some entry of its list of imports names. */
  ghost predicate ImportsOf(doc: Value, t: string) {
    GetSeq(doc, "imports").Some? && exists imp :: imp in GetSeq(doc, "imports").value && GetStr(imp, "ontology") == Some(t)
  }

  /** Every package has a hash: that of its document with each import pinned to the hash of the package it names. */
  lemma FixedPointIs(sha: Sha, docs: Docs, hashes: Hashes)
    requires forall n :: n in docs ==> NamesImports(docs[n])
    ensures IsFixedPoint(sha, docs, hashes) <==>
            && hashes.Keys == docs.Keys
            && forall n :: n in docs ==>
                 && (forall t :: ImportsOf(docs[n], t) ==> t in docs)
                 && exists pinned :: PinnedDoc(docs[n], hashes, pinned) && hashes[n] == HashValue(sha, "package", pinned)
  {
    forall n, t | n in docs ensures ImportsOf(docs[n], t) <==> t in Imports(docs[n]) {
    }
    hide Imports, ImportsOf, Fill, NamesImports, HashValue;
    if hashes.Keys == docs.Keys {
      forall n, pinned | n in docs && Ready(docs[n], hashes) ensures PinnedDoc(docs[n], hashes, pinned) <==> pinned == Fill(docs[n], hashes) {
        FillPinsDoc(docs[n], hashes, pinned);
      }
      hide PinnedDoc;
      forall n | n in docs ensures Ready(docs[n], hashes) <==> forall t :: ImportsOf(docs[n], t) ==> t in docs {
      }
    }
  }

  lemma {:induction false} FixedPointAt(sha: Sha, docs: Docs, g: Hashes, h: Hashes, rank: map<string, nat>, n: string)
    requires forall x :: x in docs ==> NamesImports(docs[x])
    requires Settled(sha, docs, g) && Ordered(docs, g, rank) && IsFixedPoint(sha, docs, h) && n in g
    ensures g[n] == h[n]
    decreases rank[n]
  {
    forall t | t in Imports(docs[n]) ensures t in g && t in h && g[t] == h[t] {
      FixedPointAt(sha, docs, g, h, rank, t);
    }
    FillAgrees(docs[n], g, h);
  }

  lemma OrderedSteps(docs: Docs, hashes: Hashes, rank: map<string, nat>)
    requires Ordered(docs, hashes, rank)
    ensures forall n, t :: n in rank && t in Next(docs)(n) ==> t in rank && rank[t] < rank[n]
  {
    hide Imports, Next;
    forall n, t | n in rank && t in Next(docs)(n) ensures t in rank && rank[t] < rank[n] {
      StepsAreImports(docs, n, t);
    }
  }

  lemma OrderedIsGrounded(docs: Docs, hashes: Hashes, rank: map<string, nat>, n: string)
    requires Ordered(docs, hashes, rank) && n in hashes
    ensures Grounded(docs, n)
  {
    hide Imports, Next, Reaches, OnCycle;
    OrderedSteps(docs, hashes, rank);
    RankedAcyclic(Next(docs), rank.Keys, rank);
    forall x | Reaches(Next(docs), n, x) ensures x in docs && !OnCycle(Next(docs), x) {
      ClosedContains(Next(docs), rank.Keys, n, x);
    }
  }

  lemma StepsAreImports(docs: Docs, n: string, t: string)
    ensures t in Next(docs)(n) <==> n in docs && t in Imports(docs[n])
  {
    hide Imports;
  }

  /** The packages of the set wait for one another, or for what is not loaded. */
  ghost predicate Waiting(docs: Docs, stuck: set<string>) {
    stuck <= docs.Keys && forall m :: m in stuck ==> exists t :: t in Imports(docs[m]) && (t !in docs || t in stuck)
  }

  lemma WaitingStep(docs: Docs, stuck: set<string>, n: string, m: string) returns (t: string)
    requires Waiting(docs, stuck) && m in stuck
    requires Reaches(Next(docs), n, m) && Loaded(docs, n)
    ensures t in Next(docs)(m) && t in stuck && Reaches(Next(docs), n, t)
  {
    hide Imports, Reaches, OnCycle;
    t :| t in Imports(docs[m]) && (t !in docs || t in stuck);
    hide Waiting;
    StepsAreImports(docs, m, t);
    ReachesStep(Next(docs), n, m, t);
  }

  lemma WaitingIsEndless(docs: Docs, stuck: set<string>, n: string, within: set<string>)
    requires Waiting(docs, stuck) && Loaded(docs, n)
    requires forall m :: m in within <==> m in stuck && Reaches(Next(docs), n, m)
    ensures Endless(Next(docs), within)
  {
    hide Waiting, Reaches, Next, Loaded, Imports;
    forall m | m in within ensures Next(docs)(m) * within != {} {
      var t := WaitingStep(docs, stuck, n, m);
      assert t in Next(docs)(m) * within;
    }
  }

  lemma GroundedIs(docs: Docs, n: string)
    requires Grounded(docs, n)
    ensures Loaded(docs, n) && forall x :: Reaches(Next(docs), n, x) ==> !OnCycle(Next(docs), x)
  {
    hide Reaches, OnCycle;
  }

  lemma WaitingCycle(docs: Docs, stuck: set<string>, n: string) returns (x: string)
    requires Waiting(docs, stuck) && n in stuck && Loaded(docs, n)
    ensures Reaches(Next(docs), n, x) && OnCycle(Next(docs), x)
  {
    var within := set m | m in stuck && Reaches(Next(docs), n, m);
    ReachesSelf(Next(docs), n);
    hide Waiting, Reaches, OnCycle, Next, Loaded, Endless;
    WaitingIsEndless(docs, stuck, n, within);
    x := EndlessPath(Next(docs), within, [n]);
  }

  lemma WaitingIsNotGrounded(docs: Docs, stuck: set<string>, n: string)
    requires Waiting(docs, stuck) && n in stuck
    ensures !Grounded(docs, n)
  {
    hide Waiting, Reaches, OnCycle, Next, Grounded, Loaded;
    if Grounded(docs, n) {
      GroundedIs(docs, n);
      var x := WaitingCycle(docs, stuck, n);
    }
  }

  // ---------------------------------------------------------------- the rounds

  datatype Outcome = Resolved(hashes: Hashes) | Unresolvable(remaining: seq<string>)

  predicate Ready(doc: Value, hashes: Hashes) {
    forall t | t in Imports(doc) :: t in hashes
  }

  lemma SettleOne(sha: Sha, docs: Docs, hashes: Hashes, n: string)
    requires forall x :: x in docs ==> NamesImports(docs[x])
    requires Settled(sha, docs, hashes)
    requires n in docs && n !in hashes && Ready(docs[n], hashes)
    ensures Settled(sha, docs, hashes[n := PackageHash(sha, Fill(docs[n], hashes))])
  {
    hide Imports, Fill, PackageHash, NamesImports;
    var more := hashes[n := PackageHash(sha, Fill(docs[n], hashes))];
    forall m | m in more ensures (forall t :: t in Imports(docs[m]) ==> t in more) && more[m] == PackageHash(sha, Fill(docs[m], more)) {
      FillAgrees(docs[m], hashes, more);
    }
  }

  lemma OrderOne(docs: Docs, hashes: Hashes, rank: map<string, nat>, n: string, hash: string)
    requires Ordered(docs, hashes, rank)
    requires n in docs && n !in hashes && Ready(docs[n], hashes)
    ensures Ordered(docs, hashes[n := hash], rank[n := |rank|])
  {
    hide Imports;
    var r := rank[n := |rank|];
    OneMoreKey(rank, n);
    assert forall t :: t in Imports(docs[n]) ==> t in rank;
    hide Ready;
    forall m, t | m in r && t in Imports(docs[m]) ensures t in r && r[t] < r[m] {
    }
  }

  lemma Nothing(sha: Sha, docs: Docs)
    ensures Settled(sha, docs, map[]) && Ordered(docs, map[], map[])
  {
  }

  lemma Whole(sha: Sha, docs: Docs, hashes: Hashes, rank: map<string, nat>)
    requires forall x :: x in docs ==> NamesImports(docs[x])
    requires Settled(sha, docs, hashes) && Ordered(docs, hashes, rank)
    requires forall n :: n in docs ==> n in hashes
    ensures forall n :: n in docs ==> Grounded(docs, n)
    ensures IsFixedPoint(sha, docs, hashes) && forall h :: IsFixedPoint(sha, docs, h) ==> h == hashes
  {
    hide Imports, Fill, PackageHash, Grounded, NamesImports;
    forall n | n in docs ensures Grounded(docs, n) {
      OrderedIsGrounded(docs, hashes, rank, n);
    }
    forall h | IsFixedPoint(sha, docs, h) ensures h == hashes {
      forall n | n in docs ensures hashes[n] == h[n] {
        FixedPointAt(sha, docs, hashes, h, rank, n);
      }
    }
  }

  /** After a round without progress, what is left waits for itself or for what is not loaded. */
  lemma LeftOver(docs: Docs, hashes: Hashes, rank: map<string, nat>, remaining: seq<string>)
    requires Ordered(docs, hashes, rank) && remaining != []
    requires forall n :: n in docs <==> n in remaining || n in hashes
    requires forall n :: n in remaining ==> n !in hashes && !Ready(docs[n], hashes)
    ensures forall n :: n in remaining <==> n in docs && !Grounded(docs, n)
    ensures exists n :: n in docs && !Grounded(docs, n)
  {
    var stuck := set n | n in remaining;
    forall m | m in stuck ensures exists t :: t in Imports(docs[m]) && (t !in docs || t in stuck) {
      var t :| t in Imports(docs[m]) && t !in hashes;
    }
    assert Waiting(docs, stuck);
    hide Imports, Grounded, Waiting, Ready, Ordered;
    forall n | n in docs ensures n in remaining <==> !Grounded(docs, n) {
      if n in remaining {
        WaitingIsNotGrounded(docs, stuck, n);
      } else {
        OrderedIsGrounded(docs, hashes, rank, n);
      }
    }
    assert remaining[0] in remaining;
  }

  /** One round over the packages still without a hash. */
  method Round(sha: Sha, docs: Docs, known: Hashes, remaining: seq<string>, ghost knownRank: map<string, nat>)
    returns (hashes: Hashes, next: seq<string>, progressed: bool, ghost rank: map<string, nat>)
    requires forall x :: x in docs ==> NamesImports(docs[x])
    requires Settled(sha, docs, known) && Ordered(docs, known, knownRank)
    requires Distinct(remaining) && forall n :: n in docs <==> n in remaining || n in known
    requires forall n :: n in remaining ==> n !in known
    ensures Settled(sha, docs, hashes) && Ordered(docs, hashes, rank)
    ensures Distinct(next) && forall n :: n in docs <==> n in next || n in hashes
    ensures forall n :: n in next ==> n !in hashes
    ensures progressed ==> |next| < |remaining|
    ensures !progressed ==> next == remaining && forall n :: n in next ==> n in docs && !Ready(docs[n], hashes)
  {
    hide Settled, Ordered, Ready, Fill, PackageHash, NamesImports;
    hashes, next, progressed, rank := known, [], false, knownRank;
    for i := 0 to |remaining|
      invariant Settled(sha, docs, hashes) && Ordered(docs, hashes, rank)
      invariant Distinct(next) && |next| <= i && forall n :: n in next ==> n in remaining[..i] && n !in hashes
      invariant forall n :: n in docs <==> n in next || n in remaining[i..] || n in hashes
      invariant forall n :: n in remaining[i..] ==> n !in hashes
      invariant progressed ==> |next| < i
      invariant !progressed ==> next == remaining[..i] && forall n :: n in next ==> n in docs && !Ready(docs[n], hashes)
    {
      var name := remaining[i];
      assert remaining[i..] == [name] + remaining[i + 1..] && remaining[..i + 1] == remaining[..i] + [name];
      assert name !in remaining[..i] && name !in remaining[i + 1..];
      if Ready(docs[name], hashes) {
        SettleOne(sha, docs, hashes, name);
        OrderOne(docs, hashes, rank, name, PackageHash(sha, Fill(docs[name], hashes)));
        rank := rank[name := |rank|];
        hashes := hashes[name := PackageHash(sha, Fill(docs[name], hashes))];
        progressed := true;
      } else {
        next := next + [name];
      }
    }
    assert remaining[..|remaining|] == remaining && remaining[|remaining|..] == [];
  }

  /**
   * Whatever order the packages are listed in, hashing succeeds exactly when every package is
   * grounded, and then returns the one fixed point; otherwise exactly the others are left over.
   */
  method ComputePackageHashes(sha: Sha, docs: Docs, order: seq<string>) returns (r: Outcome)
    requires forall x :: x in docs ==> NamesImports(docs[x])
    requires Distinct(order) && forall n :: n in order <==> n in docs
    ensures r.Resolved? <==> forall n :: n in docs ==> Grounded(docs, n)
    ensures r.Resolved? ==> IsFixedPoint(sha, docs, r.hashes) && forall h :: IsFixedPoint(sha, docs, h) ==> h == r.hashes
    ensures r.Unresolvable? ==> forall n :: n in r.remaining <==> n in docs && !Grounded(docs, n)
  {
    hide Settled, Ordered, Ready, Fill, PackageHash, NamesImports, Grounded;
    var hashes: Hashes, remaining := map[], order;
    ghost var rank: map<string, nat> := map[];
    Nothing(sha, docs);
    while remaining != []
      invariant Settled(sha, docs, hashes) && Ordered(docs, hashes, rank)
      invariant Distinct(remaining)
      invariant forall n :: n in docs <==> n in remaining || n in hashes
      invariant forall n :: n in remaining ==> n !in hashes
      decreases |remaining|
    {
      var progressed, next: seq<string> := false, [];
      hashes, next, progressed, rank := Round(sha, docs, hashes, remaining, rank);
      if !progressed {
        LeftOver(docs, hashes, rank, next);
        return Unresolvable(next);
      }
      remaining := next;
    }
    Whole(sha, docs, hashes, rank);
    r := Resolved(hashes);
  }
}
