/**
 * The binary Merkle tree with odd nodes promoted (crates/allod-core/src/hash.rs:85-167). Levels,
 * paths and digests are the program's strings; `Tree` is the tree a list of leaves stands for.
 */
module Merkle {
  import opened Text
  import opened Hashing
  import opened Canon

  /** A sibling hash, and whether it sits on the left. */
  datatype Step = Step(sibling: string, left: bool)

  /** The 64 bytes an interior node hashes. */
  function Both(l: Bytes, r: Bytes): Bytes {
    l + r
  }

  function Parent(sha: Sha, domain: string, left: string, right: string): Option<string> {
    match (DigestBytes(left), DigestBytes(right))
    case (Some(l), Some(r)) => Some(Sha256Hex(sha, domain, Both(l, r)))
    case _ => None
  }

  function NextLevel(sha: Sha, domain: string, level: seq<string>): (r: Option<seq<string>>)
    ensures r.Some? ==> |r.value| == (|level| + 1) / 2
  {
    if |level| < 2 then Some(level)
    else
      match (Parent(sha, domain, level[0], level[1]), NextLevel(sha, domain, level[2..]))
      case (Some(p), Some(rest)) => Some([p] + rest)
      case _ => None
  }

  /** None for an empty list, or when two leaves that must be combined are not digests. */
  function Root(sha: Sha, domain: string, level: seq<string>): Option<string>
    decreases |level|
  {
    if level == [] then None
    else if |level| == 1 then Some(level[0])
    else
      match NextLevel(sha, domain, level)
      case None => None
      case Some(next) => Root(sha, domain, next)
  }

  function Sibling(index: nat): nat {
    if index % 2 == 0 then index + 1 else index - 1
  }

  function LevelSteps(level: seq<string>, index: nat): seq<Step> {
    if Sibling(index) < |level| then [Step(level[Sibling(index)], Sibling(index) < index)] else []
  }

  function PathFrom(sha: Sha, domain: string, level: seq<string>, index: nat): Option<seq<Step>>
    decreases |level|
  {
    if |level| <= 1 then Some([])
    else
      match NextLevel(sha, domain, level)
      case None => None
      case Some(next) =>
        match PathFrom(sha, domain, next, index / 2)
        case None => None
        case Some(rest) => Some(LevelSteps(level, index) + rest)
  }

  function Combine(sha: Sha, domain: string, current: string, step: Step): Option<string> {
    if step.left then Parent(sha, domain, step.sibling, current) else Parent(sha, domain, current, step.sibling)
  }

  /** The hash a path leads to from a leaf, unless some hash on the way is not a digest. */
  function Climb(sha: Sha, domain: string, leaf: string, path: seq<Step>): Option<string> {
    if path == [] then Some(leaf)
    else
      match Climb(sha, domain, leaf, path[..|path| - 1])
      case None => None
      case Some(current) => Combine(sha, domain, current, path[|path| - 1])
  }

  predicate Verifies(sha: Sha, domain: string, leaf: string, path: seq<Step>, root: string) {
    Climb(sha, domain, leaf, path) == Some(root)
  }

  // ---------------------------------------------------------------- the program's loops

  method NextLevelLoop(sha: Sha, domain: string, level: seq<string>) returns (next: Option<seq<string>>)
    ensures next == NextLevel(sha, domain, level)
  {
    var built: seq<string> := [];
    var i := 0;
    assert level[0..] == level;
    EmptyThen(NextLevel(sha, domain, level));
    while i < |level|
      invariant 0 <= i <= |level|
      invariant NextLevel(sha, domain, level[i..]).Some? ==>
                  NextLevel(sha, domain, level) == Some(built + NextLevel(sha, domain, level[i..]).value)
      invariant NextLevel(sha, domain, level[i..]).None? ==> NextLevel(sha, domain, level) == None
    {
      ghost var rest := level[i..];
      if i + 1 < |level| {
        var parent := Parent(sha, domain, level[i], level[i + 1]);
        if parent.None? {
          return None;
        }
        assert rest[2..] == level[i + 2..];
        ghost var tail := NextLevel(sha, domain, level[i + 2..]);
        if tail.Some? {
          Append(built, [parent.value], tail.value);
        }
        assert NextLevel(sha, domain, rest) == if tail.Some? then Some([parent.value] + tail.value) else None;
        built := built + [parent.value];
        i := i + 2;
      } else {
        assert rest == [level[i]];
        built := built + [level[i]];
        i := i + 1;
        assert level[i..] == [];
        assert built + [] == built;
      }
    }
    next := Some(built);
    assert built + [] == built;
  }

  method MerkleRoot(sha: Sha, domain: string, leaves: seq<string>) returns (root: Option<string>)
    ensures root == Root(sha, domain, leaves)
  {
    if leaves == [] {
      return None;
    }
    var level := leaves;
    while |level| > 1
      invariant |level| >= 1
      invariant Root(sha, domain, leaves) == Root(sha, domain, level)
      decreases |level|
    {
      var next := NextLevelLoop(sha, domain, level);
      if next.None? {
        return None;
      }
      level := next.value;
    }
    root := Some(level[0]);
  }

  method MerklePath(sha: Sha, domain: string, leaves: seq<string>, index: nat) returns (path: Option<seq<Step>>)
    ensures path == if index < |leaves| then PathFrom(sha, domain, leaves, index) else None
  {
    if index >= |leaves| {
      return None;
    }
    var steps: seq<Step> := [];
    var level, idx := leaves, index;
    EmptyThen(PathFrom(sha, domain, leaves, index));
    while |level| > 1
      invariant PathFrom(sha, domain, level, idx).Some? ==>
                  PathFrom(sha, domain, leaves, index) == Some(steps + PathFrom(sha, domain, level, idx).value)
      invariant PathFrom(sha, domain, level, idx).None? ==> PathFrom(sha, domain, leaves, index) == None
      decreases |level|
    {
      ghost var rest := PathFrom(sha, domain, level, idx);
      var sibling := if idx % 2 == 0 then idx + 1 else idx - 1;
      var more := if sibling < |level| then [Step(level[sibling], sibling < idx)] else [];
      var next := NextLevelLoop(sha, domain, level);
      if next.None? {
        return None;
      }
      ghost var tail := PathFrom(sha, domain, next.value, idx / 2);
      if tail.Some? {
        Append(steps, more, tail.value);
      }
      steps := steps + more;
      idx := idx / 2;
      level := next.value;
    }
    path := Some(steps);
    assert steps + [] == steps;
  }

  method VerifyMerklePath(sha: Sha, domain: string, leaf: string, path: seq<Step>, root: string) returns (ok: bool)
    ensures ok == Verifies(sha, domain, leaf, path, root)
  {
    var current := leaf;
    for i := 0 to |path|
      invariant Climb(sha, domain, leaf, path[..i]) == Some(current)
    {
      var step := path[i];
      assert path[..i + 1][..i] == path[..i];
      var parent := Combine(sha, domain, current, step);
      if parent.None? {
        ClimbStuck(sha, domain, leaf, path, i + 1);
        return false;
      }
      current := parent.value;
    }
    assert path[..|path|] == path;
    ok := current == root;
  }

  lemma {:induction false} ClimbStuck(sha: Sha, domain: string, leaf: string, path: seq<Step>, i: nat)
    requires i <= |path|
    requires Climb(sha, domain, leaf, path[..i]) == None
    ensures Climb(sha, domain, leaf, path) == None
    decreases |path| - i
  {
    if i < |path| {
      assert path[..i + 1][..i] == path[..i];
      ClimbStuck(sha, domain, leaf, path, i + 1);
    } else {
      assert path[..i] == path;
    }
  }

  lemma EmptyThen<T>(o: Option<seq<T>>)
    ensures o.Some? ==> [] + o.value == o.value
  {
  }

  // ---------------------------------------------------------------- completeness

  lemma {:induction false} NextLevelAt(sha: Sha, domain: string, level: seq<string>, i: nat)
    requires NextLevel(sha, domain, level).Some?
    requires i < |NextLevel(sha, domain, level).value|
    ensures 2 * i < |level|
    ensures var next := NextLevel(sha, domain, level).value;
            if 2 * i + 1 < |level| then Parent(sha, domain, level[2 * i], level[2 * i + 1]) == Some(next[i])
            else next[i] == level[2 * i]
  {
    hide Parent;
    if |level| >= 2 && i > 0 {
      var rest := level[2..];
      NextLevelAt(sha, domain, rest, i - 1);
      assert NextLevel(sha, domain, level).value[i] == NextLevel(sha, domain, rest).value[i - 1];
      assert 2 * i < |level| && rest[2 * (i - 1)] == level[2 * i];
      assert 2 * i + 1 < |level| ==> rest[2 * (i - 1) + 1] == level[2 * i + 1];
    }
  }

  lemma {:induction false} ClimbOn(sha: Sha, domain: string, leaf: string, a: seq<Step>, b: seq<Step>)
    requires Climb(sha, domain, leaf, a).Some?
    ensures Climb(sha, domain, leaf, a + b) == Climb(sha, domain, Climb(sha, domain, leaf, a).value, b)
    decreases |b|
  {
    if b == [] {
      assert a + b == a;
    } else {
      ClimbOn(sha, domain, leaf, a, b[..|b| - 1]);
      assert (a + b)[..|a + b| - 1] == a + b[..|b| - 1];
      assert (a + b)[|a + b| - 1] == b[|b| - 1];
    }
  }

  lemma ClimbOne(sha: Sha, domain: string, leaf: string, step: Step)
    ensures Climb(sha, domain, leaf, [step]) == Combine(sha, domain, leaf, step)
  {
    assert [step][..0] == [];
    assert Climb(sha, domain, leaf, [step][..0]) == Some(leaf);
  }

  lemma OneLevelUp(sha: Sha, domain: string, level: seq<string>, index: nat)
    requires |level| > 1 && index < |level|
    requires NextLevel(sha, domain, level).Some?
    ensures index / 2 < |NextLevel(sha, domain, level).value|
    ensures Climb(sha, domain, level[index], LevelSteps(level, index)) == Some(NextLevel(sha, domain, level).value[index / 2])
  {
    var i, next := index / 2, NextLevel(sha, domain, level).value;
    NextLevelAt(sha, domain, level, i);
    if index % 2 == 1 {
      assert index == 2 * i + 1;
      ClimbOne(sha, domain, level[index], Step(level[2 * i], true));
    } else if index + 1 < |level| {
      assert index == 2 * i;
      ClimbOne(sha, domain, level[index], Step(level[2 * i + 1], false));
    }
  }

  /** The path produced for any index leads from that leaf to the root, odd promotion included. */
  lemma {:induction false} PathReachesRoot(sha: Sha, domain: string, level: seq<string>, index: nat)
    requires index < |level|
    requires PathFrom(sha, domain, level, index).Some?
    ensures Root(sha, domain, level).Some?
    ensures Verifies(sha, domain, level[index], PathFrom(sha, domain, level, index).value, Root(sha, domain, level).value)
    decreases |level|
  {
    if |level| > 1 {
      var next := NextLevel(sha, domain, level).value;
      OneLevelUp(sha, domain, level, index);
      PathReachesRoot(sha, domain, next, index / 2);
      ClimbOn(sha, domain, level[index], LevelSteps(level, index), PathFrom(sha, domain, next, index / 2).value);
    }
  }

  lemma {:induction false} PathExists(sha: Sha, domain: string, level: seq<string>, index: nat)
    ensures level != [] ==> (PathFrom(sha, domain, level, index).Some? <==> Root(sha, domain, level).Some?)
    decreases |level|
  {
    if |level| > 1 && NextLevel(sha, domain, level).Some? {
      PathExists(sha, domain, NextLevel(sha, domain, level).value, index / 2);
    }
  }

  function Pow2(h: nat): nat {
    if h == 0 then 1 else 2 * Pow2(h - 1)
  }

  /** A path is no longer than the height of the tree, the least h with n <= 2^h. */
  lemma {:induction false} PathIsShort(sha: Sha, domain: string, level: seq<string>, index: nat, h: nat)
    requires PathFrom(sha, domain, level, index).Some?
    requires |level| <= Pow2(h)
    ensures |PathFrom(sha, domain, level, index).value| <= h
    decreases |level|
  {
    if |level| > 1 {
      PathIsShort(sha, domain, NextLevel(sha, domain, level).value, index / 2, h - 1);
    }
  }

  // ---------------------------------------------------------------- the tree behind a list of leaves

  datatype Tree = Leaf(payload: Bytes) | Node(l: Tree, r: Tree)

  /** The two domains of a tree; leaves and interior nodes never share one. */
  datatype Domains = Domains(leaf: string, node: string) {
    predicate Valid() {
      ':' !in leaf && ':' !in node && leaf != node
    }
  }

  function NodeImage(ds: Domains, l: Digest, r: Digest): Bytes {
    Tagged(ds.node, Both(l, r))
  }

  function TreeDigest(sha: Sha, ds: Domains, t: Tree): Digest {
    match t
    case Leaf(p) => sha(Tagged(ds.leaf, p))
    case Node(l, r) => sha(NodeImage(ds, TreeDigest(sha, ds, l), TreeDigest(sha, ds, r)))
  }

  /** Every preimage hashed to build the tree. */
  function TreeImages(sha: Sha, ds: Domains, t: Tree): set<Bytes> {
    match t
    case Leaf(p) => {Tagged(ds.leaf, p)}
    case Node(l, r) =>
      {NodeImage(ds, TreeDigest(sha, ds, l), TreeDigest(sha, ds, r))} + TreeImages(sha, ds, l) + TreeImages(sha, ds, r)
  }

  function Fringe(t: Tree): seq<Bytes> {
    match t
    case Leaf(p) => [p]
    case Node(l, r) => Fringe(l) + Fringe(r)
  }

  function Fringes(ts: seq<Tree>): seq<Bytes> {
    if ts == [] then [] else Fringe(ts[0]) + Fringes(ts[1..])
  }

  function Pairs(ts: seq<Tree>): (r: seq<Tree>)
    ensures |r| == (|ts| + 1) / 2
  {
    if |ts| < 2 then ts else [Node(ts[0], ts[1])] + Pairs(ts[2..])
  }

  function Build(ts: seq<Tree>): Tree
    requires ts != []
    decreases |ts|
  {
    if |ts| == 1 then ts[0] else Build(Pairs(ts))
  }

  function Leaves(payloads: seq<Bytes>): (ts: seq<Tree>)
    ensures |ts| == |payloads|
  {
    seq(|payloads|, i requires 0 <= i < |payloads| => Leaf(payloads[i]))
  }

  function TreeOf(payloads: seq<Bytes>): Tree
    requires payloads != []
  {
    Build(Leaves(payloads))
  }

  function Texts(sha: Sha, ds: Domains, ts: seq<Tree>): (r: seq<string>)
    ensures |r| == |ts|
  {
    seq(|ts|, i requires 0 <= i < |ts| => Render(TreeDigest(sha, ds, ts[i])))
  }

  /** The leaf hashes the program stores: one `sha256_hex(leaf domain, payload)` each. */
  function LeafTexts(sha: Sha, ds: Domains, payloads: seq<Bytes>): (r: seq<string>)
    ensures |r| == |payloads|
  {
    seq(|payloads|, i requires 0 <= i < |payloads| => Sha256Hex(sha, ds.leaf, payloads[i]))
  }

  lemma ParentOfRendered(sha: Sha, ds: Domains, l: Tree, r: Tree)
    ensures Parent(sha, ds.node, Render(TreeDigest(sha, ds, l)), Render(TreeDigest(sha, ds, r)))
         == Some(Render(TreeDigest(sha, ds, Node(l, r))))
  {
    RenderParses(TreeDigest(sha, ds, l));
    RenderParses(TreeDigest(sha, ds, r));
  }

  lemma TextsCons(sha: Sha, ds: Domains, t: Tree, ts: seq<Tree>)
    ensures Texts(sha, ds, [t] + ts) == [Render(TreeDigest(sha, ds, t))] + Texts(sha, ds, ts)
  {
  }

  lemma {:induction false} NextLevelIsPairs(sha: Sha, ds: Domains, ts: seq<Tree>)
    ensures NextLevel(sha, ds.node, Texts(sha, ds, ts)) == Some(Texts(sha, ds, Pairs(ts)))
  {
    if |ts| >= 2 {
      NextLevelIsPairs(sha, ds, ts[2..]);
      ParentOfRendered(sha, ds, ts[0], ts[1]);
      assert Texts(sha, ds, ts)[2..] == Texts(sha, ds, ts[2..]);
      TextsCons(sha, ds, Node(ts[0], ts[1]), Pairs(ts[2..]));
    }
  }

  lemma {:induction false} RootIsBuilt(sha: Sha, ds: Domains, ts: seq<Tree>)
    requires ts != []
    ensures Root(sha, ds.node, Texts(sha, ds, ts)) == Some(Render(TreeDigest(sha, ds, Build(ts))))
    decreases |ts|
  {
    if |ts| > 1 {
      NextLevelIsPairs(sha, ds, ts);
      RootIsBuilt(sha, ds, Pairs(ts));
    }
  }

  lemma RootOfLeaves(sha: Sha, ds: Domains, payloads: seq<Bytes>)
    requires payloads != []
    ensures Root(sha, ds.node, LeafTexts(sha, ds, payloads)) == Some(Render(TreeDigest(sha, ds, TreeOf(payloads))))
  {
    RootIsBuilt(sha, ds, Leaves(payloads));
    assert Texts(sha, ds, Leaves(payloads)) == LeafTexts(sha, ds, payloads);
  }

  lemma {:induction false} FringesOfPairs(ts: seq<Tree>)
    ensures Fringes(Pairs(ts)) == Fringes(ts)
  {
    if |ts| >= 2 {
      FringesOfPairs(ts[2..]);
      assert Pairs(ts)[1..] == Pairs(ts[2..]);
      assert ts[1..][0] == ts[1] && ts[1..][1..] == ts[2..];
      Append(Fringe(ts[0]), Fringe(ts[1]), Fringes(ts[2..]));
    }
  }

  lemma {:induction false} FringeOfBuild(ts: seq<Tree>)
    requires ts != []
    ensures Fringe(Build(ts)) == Fringes(ts)
    decreases |ts|
  {
    if |ts| == 1 {
      assert Fringes(ts[1..]) == [];
      assert Fringe(ts[0]) + [] == Fringe(ts[0]);
    } else {
      FringesOfPairs(ts);
      FringeOfBuild(Pairs(ts));
    }
  }

  lemma {:induction false} FringesOfLeaves(payloads: seq<Bytes>)
    ensures Fringes(Leaves(payloads)) == payloads
  {
    if payloads == [] {
    } else {
      FringesOfLeaves(payloads[1..]);
      assert Leaves(payloads)[1..] == Leaves(payloads[1..]);
      assert payloads == [payloads[0]] + payloads[1..];
    }
  }

  lemma FringeOfTree(payloads: seq<Bytes>)
    requires payloads != []
    ensures Fringe(TreeOf(payloads)) == payloads
  {
    FringesOfLeaves(payloads);
    FringeOfBuild(Leaves(payloads));
  }

  // ---------------------------------------------------------------- binding

  lemma PairSplits(l1: Digest, r1: Digest, l2: Digest, r2: Digest)
    requires Both(l1, r1) == Both(l2, r2)
    ensures l1 == l2 && r1 == r2
  {
    SplitAfter(l1, r1);
    SplitAfter(l2, r2);
  }

  lemma RootImage(sha: Sha, ds: Domains, t: Tree)
    ensures t.Leaf? ==> Tagged(ds.leaf, t.payload) in TreeImages(sha, ds, t)
    ensures t.Node? ==> NodeImage(ds, TreeDigest(sha, ds, t.l), TreeDigest(sha, ds, t.r)) in TreeImages(sha, ds, t)
    ensures t.Node? ==> TreeImages(sha, ds, t.l) <= TreeImages(sha, ds, t) && TreeImages(sha, ds, t.r) <= TreeImages(sha, ds, t)
  {
  }

  /** A node whose digest is the hash of a leaf-domain payload is that leaf. */
  lemma LeafDigest(sha: Sha, ds: Domains, t: Tree, p: Bytes, images: set<Bytes>)
    requires ds.Valid() && CollisionFree(sha, images)
    requires TreeImages(sha, ds, t) <= images && Tagged(ds.leaf, p) in images
    requires TreeDigest(sha, ds, t) == sha(Tagged(ds.leaf, p))
    ensures t == Leaf(p)
  {
    RootImage(sha, ds, t);
    match t {
      case Leaf(q) =>
        TagInjective(ds.leaf, ds.leaf, p, q);
      case Node(l, r) =>
        TagInjective(ds.leaf, ds.node, p, Both(TreeDigest(sha, ds, l), TreeDigest(sha, ds, r)));
        assert false;
    }
  }

  /** A node whose digest is the hash of two digests in the node domain has children with those digests. */
  lemma NodeDigest(sha: Sha, ds: Domains, t: Tree, a: Digest, b: Digest, images: set<Bytes>)
    requires ds.Valid() && CollisionFree(sha, images)
    requires TreeImages(sha, ds, t) <= images && NodeImage(ds, a, b) in images
    requires TreeDigest(sha, ds, t) == sha(NodeImage(ds, a, b))
    ensures t.Node? && TreeDigest(sha, ds, t.l) == a && TreeDigest(sha, ds, t.r) == b
  {
    RootImage(sha, ds, t);
    match t {
      case Leaf(q) =>
        TagInjective(ds.leaf, ds.node, q, Both(a, b));
        assert false;
      case Node(l, r) =>
        TagInjective(ds.node, ds.node, Both(TreeDigest(sha, ds, l), TreeDigest(sha, ds, r)), Both(a, b));
        PairSplits(TreeDigest(sha, ds, l), TreeDigest(sha, ds, r), a, b);
    }
  }

  /** Trees of any shapes with the same root digest are the same tree. */
  lemma {:induction false} DigestBindsTree(sha: Sha, ds: Domains, t: Tree, u: Tree, images: set<Bytes>)
    requires ds.Valid() && CollisionFree(sha, images)
    requires TreeImages(sha, ds, t) <= images && TreeImages(sha, ds, u) <= images
    requires TreeDigest(sha, ds, t) == TreeDigest(sha, ds, u)
    ensures t == u
  {
    RootImage(sha, ds, u);
    match u {
      case Leaf(p) =>
        LeafDigest(sha, ds, t, p, images);
      case Node(l, r) =>
        NodeDigest(sha, ds, t, TreeDigest(sha, ds, l), TreeDigest(sha, ds, r), images);
        RootImage(sha, ds, t);
        DigestBindsTree(sha, ds, t.l, l, images);
        DigestBindsTree(sha, ds, t.r, r, images);
    }
  }

  /** Two lists of leaves, of any lengths, with the same root are equal. */
  lemma RootBindsLeaves(sha: Sha, ds: Domains, ps: seq<Bytes>, qs: seq<Bytes>, images: set<Bytes>)
    requires ds.Valid() && CollisionFree(sha, images)
    requires ps != [] && qs != []
    requires TreeImages(sha, ds, TreeOf(ps)) <= images && TreeImages(sha, ds, TreeOf(qs)) <= images
    requires Root(sha, ds.node, LeafTexts(sha, ds, ps)) == Root(sha, ds.node, LeafTexts(sha, ds, qs))
    ensures ps == qs
  {
    RootOfLeaves(sha, ds, ps);
    RootOfLeaves(sha, ds, qs);
    RenderInjective(TreeDigest(sha, ds, TreeOf(ps)), TreeDigest(sha, ds, TreeOf(qs)));
    DigestBindsTree(sha, ds, TreeOf(ps), TreeOf(qs), images);
    FringeOfTree(ps);
    FringeOfTree(qs);
  }

  // ---------------------------------------------------------------- soundness of membership proofs

  /** The preimages the verifier hashes while it follows a path. */
  function ClimbImages(sha: Sha, ds: Domains, leaf: string, path: seq<Step>): set<Bytes> {
    if path == [] then {}
    else
      var before, step := path[..|path| - 1], path[|path| - 1];
      ClimbImages(sha, ds, leaf, before) +
      match Climb(sha, ds.node, leaf, before)
      case None => {}
      case Some(current) =>
        match (DigestBytes(current), DigestBytes(step.sibling))
        case (Some(c), Some(s)) => {if step.left then NodeImage(ds, s, c) else NodeImage(ds, c, s)}
        case _ => {}
  }

  lemma {:induction false} ClimbRenders(sha: Sha, ds: Domains, p: Bytes, path: seq<Step>) returns (d: Digest)
    requires Climb(sha, ds.node, Sha256Hex(sha, ds.leaf, p), path).Some?
    ensures Climb(sha, ds.node, Sha256Hex(sha, ds.leaf, p), path) == Some(Render(d))
  {
    var leaf := Sha256Hex(sha, ds.leaf, p);
    if path == [] {
      d := sha(Tagged(ds.leaf, p));
    } else {
      var c, step := Climb(sha, ds.node, leaf, path[..|path| - 1]).value, path[|path| - 1];
      var a, b := DigestBytes(c).value, DigestBytes(step.sibling).value;
      d := sha(NodeImage(ds, if step.left then b else a, if step.left then a else b));
    }
  }

  /** A path that climbs from a leaf-domain hash to the digest of a tree starts at one of its leaves. */
  lemma {:induction false} ClimbStartsInTree(sha: Sha, ds: Domains, t: Tree, p: Bytes, path: seq<Step>, images: set<Bytes>)
    requires ds.Valid() && CollisionFree(sha, images)
    requires TreeImages(sha, ds, t) <= images && Tagged(ds.leaf, p) in images
    requires ClimbImages(sha, ds, Sha256Hex(sha, ds.leaf, p), path) <= images
    requires Climb(sha, ds.node, Sha256Hex(sha, ds.leaf, p), path) == Some(Render(TreeDigest(sha, ds, t)))
    ensures p in Fringe(t)
    decreases |path|
  {
    var leaf := Sha256Hex(sha, ds.leaf, p);
    if path == [] {
      RenderInjective(TreeDigest(sha, ds, t), sha(Tagged(ds.leaf, p)));
      LeafDigest(sha, ds, t, p, images);
    } else {
      var before, step := path[..|path| - 1], path[|path| - 1];
      var c := ClimbRenders(sha, ds, p, before);
      RenderParses(c);
      var s := DigestBytes(step.sibling).value;
      var a, b := if step.left then s else c, if step.left then c else s;
      assert NodeImage(ds, a, b) in ClimbImages(sha, ds, leaf, path);
      RenderInjective(TreeDigest(sha, ds, t), sha(NodeImage(ds, a, b)));
      NodeDigest(sha, ds, t, a, b, images);
      RootImage(sha, ds, t);
      ClimbStartsInTree(sha, ds, if step.left then t.r else t.l, p, before, images);
    }
  }

  /** Any accepted path from a leaf-domain hash to the root of a list proves the leaf is in the list. */
  lemma MembershipSound(sha: Sha, ds: Domains, ps: seq<Bytes>, p: Bytes, path: seq<Step>, images: set<Bytes>)
    requires ds.Valid() && CollisionFree(sha, images)
    requires ps != [] && TreeImages(sha, ds, TreeOf(ps)) <= images
    requires Tagged(ds.leaf, p) in images && ClimbImages(sha, ds, Sha256Hex(sha, ds.leaf, p), path) <= images
    requires Root(sha, ds.node, LeafTexts(sha, ds, ps)).Some?
    requires Verifies(sha, ds.node, Sha256Hex(sha, ds.leaf, p), path, Root(sha, ds.node, LeafTexts(sha, ds, ps)).value)
    ensures p in ps
  {
    RootOfLeaves(sha, ds, ps);
    ClimbStartsInTree(sha, ds, TreeOf(ps), p, path, images);
    FringeOfTree(ps);
  }

  /** Every leaf of a non-empty list has a path, and the verifier accepts it. */
  lemma MembershipComplete(sha: Sha, ds: Domains, ps: seq<Bytes>, index: nat)
    requires index < |ps|
    ensures Root(sha, ds.node, LeafTexts(sha, ds, ps)).Some?
    ensures PathFrom(sha, ds.node, LeafTexts(sha, ds, ps), index).Some?
    ensures Verifies(sha, ds.node, LeafTexts(sha, ds, ps)[index], PathFrom(sha, ds.node, LeafTexts(sha, ds, ps), index).value,
                     Root(sha, ds.node, LeafTexts(sha, ds, ps)).value)
  {
    RootOfLeaves(sha, ds, ps);
    PathExists(sha, ds.node, LeafTexts(sha, ds, ps), index);
    PathReachesRoot(sha, ds.node, LeafTexts(sha, ds, ps), index);
  }
}
