/**
 * Admission of changesets (crates/allod-graph/src/ops.rs:83-269 and the approval step in
 * crates/allod-graph/src/flows.rs:473-582), and why replaying the log gives back what was admitted.
 */
module Admission {
  import opened Text
  import opened Values
  import opened Hashing
  import opened Model
  import opened Merkle
  import opened Objects
  import opened Registries
  import opened Meta
  import opened Fold
  import opened Replay
  import opened Store
  import opened Policy
  import opened Quorum

  // ---------------------------------------------------------------- the policy in force

  predicate IsPolicyNode(s: Objects, k: Key) {
    k in s && LiveType(s, k).Some? && Bare(LiveType(s, k).value) == "meta/Policy"
  }

  function FirstPolicy(parse: Parser, s: Objects, keys: seq<Key>): Result<Value>
    requires forall k :: k in keys ==> k in s
  {
    if keys == [] then Err("no policy installed")
    else if IsPolicyNode(s, keys[0]) then
      var text :- OrErr(GetStr(AttributesOf(s[keys[0]].content), "definition"), "meta/Policy node missing definition attribute");
      OrErr(parse(text), "meta/Policy definition is not valid YAML")
    else FirstPolicy(parse, s, keys[1..])
  }

  /** The definition of the first live policy node. */
  function PolicyOf(parse: Parser, s: Objects): Result<Value> {
    FirstPolicy(parse, s, InOrder(s.Keys))
  }

  function AuthorKind(s: Objects, author: string): Result<string> {
    match FindPrincipal(s, author)
    case None => Err("unknown principal")
    case Some(k) => if k in s then OrErr(PrincipalKind(Bare(GetStr(s[k].content, "type").GetOr(""))), "unknown principal") else Err("unknown principal")
  }

  // ---------------------------------------------------------------- governance of one changeset

  /** Libraries and configuration the admission steps consult. */
  datatype Setting = Setting(env: Env, trust: Trust, roots: seq<string>, trusted: seq<string>)

  /** The state, registry and policy at the tip. */
  datatype Tip = Tip(state: Objects, reg: Registry, policy: Value)

  ghost predicate IsTip(set0: Setting, log: map<string, Value>, head: Option<string>, tip: Tip) {
    && Ends(log, head)
    && Folded(set0.env, log, head, None) == Ok(tip.state)
    && FromState(set0.env.parse, tip.state) == Ok(tip.reg)
    && PolicyOf(set0.env.parse, tip.state) == Ok(tip.policy)
  }

  function SubmissionOf(set0: Setting, cs: Value, author: string, e: Evidence): Submission {
    Submission(cs, author, set0.roots, e.decisions, e.envelopes, set0.trusted)
  }

  /** The checklist is the exact union of what the policy at the tip asks for. */
  ghost predicate IsUnionAt(set0: Setting, tip: Tip, cs: Value, author: string, list: Checklist)
    requires AuthorKind(tip.state, author).Ok? && OpContexts(tip.reg, tip.state, cs).Ok? && GetSeq(tip.policy, "rules").Some?
  {
    IsUnion(tip.reg, GetSeq(tip.policy, "rules").value, AuthorKind(tip.state, author).value,
            OpContexts(tip.reg, tip.state, cs).value, IsRestricted(tip.policy), list)
  }

  /** The policy at the tip is satisfied: some checklist that is the exact union of requirements is met. */
  ghost predicate Governed(set0: Setting, tip: Tip, cs: Value, author: string, e: Evidence) {
    AuthorKind(tip.state, author).Ok? && OpContexts(tip.reg, tip.state, cs).Ok? && GetSeq(tip.policy, "rules").Some?
    && ChangesetHash(set0.trust.sha, cs).Ok?
    && exists list ::
         && IsUnionAt(set0, tip, cs, author, list)
         && Satisfied(set0.trust, tip.state, tip.policy, SubmissionOf(set0, cs, author, e), ChangesetHash(set0.trust.sha, cs).value.0, list)
  }

  /** The policy can be evaluated: the author is known, and approvals that count have their signed fields. */
  ghost predicate Evaluable(set0: Setting, tip: Tip, cs: Value, author: string, e: Evidence) {
    && AuthorKind(tip.state, author).Ok? && OpContexts(tip.reg, tip.state, cs).Ok? && GetSeq(tip.policy, "rules").Some?
    && ChangesetHash(set0.trust.sha, cs).Ok?
    && (WellFormed(set0.trust, tip.policy, ChangesetHash(set0.trust.sha, cs).value.0, e.decisions)
        || exists list :: IsUnionAt(set0, tip, cs, author, list) && list.reviewers == [])
  }

  lemma SameUnion(reg: Registry, rules: seq<Value>, authorKind: string, ctxs: seq<OpContext>, restricted: bool, a: Checklist, b: Checklist)
    requires IsUnion(reg, rules, authorKind, ctxs, restricted, a) && IsUnion(reg, rules, authorKind, ctxs, restricted, b)
    ensures SameAsked(a, b)
  {
    hide Matched, AsksReviewers, AskedClass, Unmatched, Distinct;
  }

  ghost predicate SameAsked(a: Checklist, b: Checklist) {
    && a.rootRequired == b.rootRequired
    && (forall q :: q in a.reviewers <==> q in b.reviewers)
    && (forall c :: c in a.attestations <==> c in b.attestations)
  }

  lemma SameSatisfied(trust: Trust, parent: Objects, policy: Value, sub: Submission, h: string, a: Checklist, b: Checklist)
    requires SameAsked(a, b)
    ensures Satisfied(trust, parent, policy, sub, h, a) <==> Satisfied(trust, parent, policy, sub, h, b)
    ensures a.reviewers == [] <==> b.reviewers == []
  {
    hide QuorumMet, Attests;
    assert a.reviewers != [] ==> a.reviewers[0] in a.reviewers;
    assert b.reviewers != [] ==> b.reviewers[0] in b.reviewers;
    assert a.attestations != [] ==> a.attestations[0] in a.attestations;
    assert b.attestations != [] ==> b.attestations[0] in b.attestations;
  }

  /** Read the tip; every step of admission starts from it. */
  method ReadTip(set0: Setting, g: Graph) returns (r: Result<Tip>)
    requires Ends(g.log, g.head)
    ensures r.Ok? ==> IsTip(set0, g.log, g.head, r.value)
    ensures r.Err? ==> forall tip :: !IsTip(set0, g.log, g.head, tip)
  {
    hide Folded, FromState, PolicyOf;
    var state := g.FoldTo(set0.env, None);
    if state.Err? {
      return Err(state.error);
    }
    var reg := FromState(set0.env.parse, state.value);
    if reg.Err? {
      return Err(reg.error);
    }
    var policy := PolicyOf(set0.env.parse, state.value);
    if policy.Err? {
      return Err(policy.error);
    }
    r := Ok(Tip(state.value, reg.value, policy.value));
  }

  /** Evaluate the policy at the tip and check the evidence against it. */
  method Govern(set0: Setting, tip: Tip, cs: Value, author: string, e: Evidence) returns (r: Result<bool>)
    ensures r.Ok? <==> Evaluable(set0, tip, cs, author, e)
    ensures r.Ok? ==> (r.value <==> Governed(set0, tip, cs, author, e))
  {
    hide IsUnion, Satisfied, OpContexts, AuthorKind, ChangesetHash, WellFormed, IsRestricted, SameAsked;
    var kind := AuthorKind(tip.state, author);
    if kind.Err? {
      return Err(kind.error);
    }
    var list := Evaluate(tip.reg, tip.policy, tip.state, cs, kind.value);
    if list.Err? {
      return Err(list.error);
    }
    var checked := CheckSatisfied(set0.trust, tip.state, tip.policy, SubmissionOf(set0, cs, author, e), list.value);
    r := match checked case Ok(v) => Ok(v.unmet == []) case Err(why) => Err(why);
    assert IsUnionAt(set0, tip, cs, author, list.value);
    forall other | IsUnionAt(set0, tip, cs, author, other) ensures SameAsked(list.value, other) {
      SameUnion(tip.reg, GetSeq(tip.policy, "rules").value, kind.value, OpContexts(tip.reg, tip.state, cs).value, IsRestricted(tip.policy), list.value, other);
    }
    if ChangesetHash(set0.trust.sha, cs).Ok? {
      var sub, h := SubmissionOf(set0, cs, author, e), ChangesetHash(set0.trust.sha, cs).value.0;
      forall other | IsUnionAt(set0, tip, cs, author, other)
        ensures Satisfied(set0.trust, tip.state, tip.policy, sub, h, list.value) <==> Satisfied(set0.trust, tip.state, tip.policy, sub, h, other)
        ensures list.value.reviewers == [] <==> other.reviewers == []
      {
        SameSatisfied(set0.trust, tip.state, tip.policy, sub, h, list.value, other);
      }
    }
  }

  // ---------------------------------------------------------------- the admission steps

  datatype Outcome = Admitted | Held | Rejected

  /** An accepted changeset: it applies to the tip state under the tip registry, and it becomes the tip. */
  ghost predicate Accepts(set0: Setting, tip: Tip, cs: Value, hash: string,
                          log: map<string, Value>, log': map<string, Value>, head': Option<string>, after: Objects) {
    && Apply(set0.env.sha, tip.reg, tip.state, cs) == Ok(after)
    && log' == log[Short(hash) := cs]
    && head' == Some(hash)
  }

  lemma AcceptedNamesHead(set0: Setting, tip: Tip, cs: Value, hash: string, log: map<string, Value>, log': map<string, Value>, head': Option<string>, after: Objects)
    requires Accepts(set0, tip, cs, hash, log, log', head', after)
    ensures log' == log[Short(hash) := cs] && head' == Some(hash)
  {
    hide Apply, Short;
  }

  /** Admission fails: there is no tip, the policy cannot be evaluated, or the fold rejects what the policy lets through. */
  ghost predicate Stuck(set0: Setting, log: map<string, Value>, head: Option<string>, cs: Value, author: string, e: Evidence)
    requires Ends(log, head)
  {
    forall tip :: IsTip(set0, log, head, tip) ==>
      !Evaluable(set0, tip, cs, author, e) || (Governed(set0, tip, cs, author, e) && Apply(set0.env.sha, tip.reg, tip.state, cs).Err?)
  }

  lemma OneTip(set0: Setting, log: map<string, Value>, head: Option<string>, a: Tip, b: Tip)
    requires IsTip(set0, log, head, a) && IsTip(set0, log, head, b)
    ensures a == b
  {
    hide Folded, FromState, PolicyOf;
  }

  lemma StuckAt(set0: Setting, log: map<string, Value>, head: Option<string>, tip: Tip, cs: Value, author: string, e: Evidence)
    requires Ends(log, head) && IsTip(set0, log, head, tip)
    requires !Evaluable(set0, tip, cs, author, e) || (Governed(set0, tip, cs, author, e) && Apply(set0.env.sha, tip.reg, tip.state, cs).Err?)
    ensures Stuck(set0, log, head, cs, author, e)
  {
    hide IsTip, Evaluable, Governed, Apply;
    forall other | IsTip(set0, log, head, other) ensures other == tip {
      OneTip(set0, log, head, other, tip);
    }
  }

  method Commit(set0: Setting, g: Graph, ghost tip: Tip, reg: Registry, state: Objects, cs: Value, hash: string, e: Evidence) returns (r: Result<Objects>)
    requires reg == tip.reg && state == tip.state
    modifies g
    ensures r.Ok? ==> Accepts(set0, tip, cs, hash, old(g.log), g.log, g.head, r.value)
    ensures g.proposals == old(g.proposals) && g.pending == old(g.pending)
    ensures g.evidence == if r.Ok? then old(g.evidence)[Short(hash) := e] else old(g.evidence)
    ensures r.Err? ==> Apply(set0.env.sha, reg, state, cs).Err? && g.log == old(g.log) && g.head == old(g.head)
  {
    hide Apply;
    var after := Apply(set0.env.sha, reg, state, cs);
    if after.Err? {
      return Err(after.error);
    }
    g.AppendChangeset(cs, hash, e);
    r := Ok(after.value);
  }

  /** Admit a changeset the policy is content with; hold any other as a proposal. */
  method AdmitOrHold(set0: Setting, g: Graph, author: string, cs: Value, hash: string, envelopes: seq<Value>)
    returns (r: Result<Outcome>, ghost tip: Tip, ghost after: Objects)
    requires Ends(g.log, g.head)
    modifies g
    ensures r != Ok(Rejected) && (r.Ok? ==> IsTip(set0, old(g.log), old(g.head), tip))
    ensures r == Ok(Admitted) ==>
              && Governed(set0, tip, cs, "principal:" + author, Evidence([], envelopes))
              && Accepts(set0, tip, cs, hash, old(g.log), g.log, g.head, after)
    ensures r == Ok(Held) ==>
              && !Governed(set0, tip, cs, "principal:" + author, Evidence([], envelopes))
              && g.proposals == old(g.proposals)[Short(hash) := cs]
              && g.pending == old(g.pending)[Short(hash) := Evidence([], envelopes)]
    ensures r.Err? ==> Stuck(set0, old(g.log), old(g.head), cs, "principal:" + author, Evidence([], envelopes))
    ensures g.evidence == if r == Ok(Admitted) then old(g.evidence)[Short(hash) := Evidence([], envelopes)] else old(g.evidence)
    ensures r != Ok(Admitted) ==> g.log == old(g.log) && g.head == old(g.head)
    ensures r != Ok(Held) ==> g.proposals == old(g.proposals) && g.pending == old(g.pending)
  {
    hide IsTip, Governed, Accepts, Evaluable, Apply;
    tip, after := Tip(map[], EMPTY, Null), map[];
    var read := ReadTip(set0, g);
    if read.Err? {
      return Err(read.error), tip, after;
    }
    tip := read.value;
    var e := Evidence([], envelopes);
    var ok := Govern(set0, read.value, cs, "principal:" + author, e);
    if ok.Err? {
      StuckAt(set0, g.log, g.head, tip, cs, "principal:" + author, e);
      return Err(ok.error), tip, after;
    }
    if ok.value {
      var done := Commit(set0, g, tip, read.value.reg, read.value.state, cs, hash, e);
      if done.Err? {
        StuckAt(set0, g.log, g.head, tip, cs, "principal:" + author, e);
        return Err(done.error), tip, after;
      }
      after := done.value;
      r := Ok(Admitted);
    } else {
      g.WriteProposal(cs, hash, e);
      r := Ok(Held);
    }
  }

  predicate RecordShape(record: Value, hash: string) {
    && GetStr(record, "kind") == Some("decision-record")
    && GetStr(record, "subject").GetOr("") == hash
    && exists d | d in Deciders(record) :: GetStr(d, "signature").Some? && "sig:ed25519:" <= GetStr(d, "signature").value
  }

  predicate AlreadyRejected(decisions: seq<Value>) {
    exists d | d in decisions :: GetStr(d, "verdict") == Some("reject")
  }

  function AuthorOf(cs: Value): Option<string> {
    match Get(cs, "author") case Some(a) => GetStr(a, "principal") case None => None
  }

  /** The evidence filed with a proposal; none when there is no file. */
  function Filed(pending: map<string, Evidence>, hash: string): Evidence {
    if Short(hash) in pending then pending[Short(hash)] else Evidence([], [])
  }

  function WithRecord(e: Evidence, record: Value): Evidence {
    e.(decisions := e.decisions + [record])
  }

  /** Some decision filed with the proposal rejects it. */
  ghost predicate IsRejected(pending: map<string, Evidence>, hash: string) {
    Short(hash) in pending && exists d :: d in pending[Short(hash)].decisions && GetStr(d, "verdict") == Some("reject")
  }

  /** The record says what it is, is about the proposal, and carries an Ed25519 signature of some decider. */
  ghost predicate FitsProposal(record: Value, hash: string) {
    && GetStr(record, "kind") == Some("decision-record")
    && GetStr(record, "subject").GetOr("") == hash
    && GetSeq(record, "deciders").Some?
    && exists d :: d in GetSeq(record, "deciders").value && GetStr(d, "signature").Some? && "sig:ed25519:" <= GetStr(d, "signature").value
  }

  /** The proposal can still be decided by this record. */
  ghost predicate Open(proposals: map<string, Value>, pending: map<string, Evidence>, hash: string, record: Value) {
    FitsProposal(record, hash) && Short(hash) in proposals && !IsRejected(pending, hash)
  }

  /** The evidence of a proposal once the record is added to it. */
  ghost function Decided(pending: map<string, Evidence>, hash: string, record: Value): Evidence {
    if Short(hash) in pending then Evidence(pending[Short(hash)].decisions + [record], pending[Short(hash)].envelopes)
    else Evidence([record], [])
  }

  lemma OpenIs(pending: map<string, Evidence>, hash: string, record: Value)
    ensures RecordShape(record, hash) <==> FitsProposal(record, hash)
    ensures AlreadyRejected(Filed(pending, hash).decisions) <==> IsRejected(pending, hash)
    ensures WithRecord(Filed(pending, hash), record) == Decided(pending, hash, record)
  {
    hide Short;
    assert [] + [record] == [record];
  }

  /**
   * Apply a signed decision to a held proposal. A proposal that was ever rejected stays rejected; any
   * other is decided by what the policy at the tip makes of the evidence with this record in it.
   */
  method DecideWithRecord(set0: Setting, g: Graph, hash: string, record: Value)
    returns (r: Result<Outcome>, ghost tip: Tip, ghost after: Objects)
    requires Ends(g.log, g.head)
    modifies g
    ensures IsRejected(old(g.pending), hash) || !FitsProposal(record, hash) || Short(hash) !in old(g.proposals) ==> r.Err?
    ensures r == Ok(Rejected) <==> Open(old(g.proposals), old(g.pending), hash, record) && GetStr(record, "verdict") == Some("reject")
    ensures r == Ok(Admitted) || r == Ok(Held) ==>
              && IsTip(set0, old(g.log), old(g.head), tip)
              && Short(hash) in old(g.proposals)
              && var cs := old(g.proposals)[Short(hash)];
                 AuthorOf(cs).Some?
                 && (r == Ok(Admitted) <==> Governed(set0, tip, cs, AuthorOf(cs).value, Decided(old(g.pending), hash, record)))
    ensures r == Ok(Admitted) ==>
              && Accepts(set0, tip, old(g.proposals)[Short(hash)], hash, old(g.log), g.log, g.head, after)
              && g.proposals == old(g.proposals) - {Short(hash)} && g.pending == old(g.pending) - {Short(hash)}
    ensures r == Ok(Held) || r == Ok(Rejected) ==> g.pending == old(g.pending)[Short(hash) := Decided(old(g.pending), hash, record)]
    ensures r != Ok(Admitted) ==> g.log == old(g.log) && g.head == old(g.head) && g.proposals == old(g.proposals)
    ensures g.evidence == if r == Ok(Admitted) then old(g.evidence)[Short(hash) := Decided(old(g.pending), hash, record)] else old(g.evidence)
    ensures r.Err? ==> g.pending == old(g.pending)
    ensures r.Err? && Open(old(g.proposals), old(g.pending), hash, record) ==>
              var cs := old(g.proposals)[Short(hash)];
              AuthorOf(cs).Some? ==> Stuck(set0, old(g.log), old(g.head), cs, AuthorOf(cs).value, Decided(old(g.pending), hash, record))
  {
    hide IsTip, Governed, Accepts, Evaluable, Apply, RecordShape, AlreadyRejected, Filed, WithRecord, AuthorOf, FitsProposal, IsRejected, Decided;
    tip, after := Tip(map[], EMPTY, Null), map[];
    OpenIs(g.pending, hash, record);
    if !RecordShape(record, hash) {
      return Err("record does not fit the proposal"), tip, after;
    }
    var name := Short(hash);
    if name !in g.proposals {
      return Err("proposal not found"), tip, after;
    }
    var cs := g.proposals[name];
    var filed := Filed(g.pending, hash);
    if AlreadyRejected(filed.decisions) {
      return Err("already decided"), tip, after;
    }
    var e := WithRecord(filed, record);
    if GetStr(record, "verdict") == Some("reject") {
      g.pending := g.pending[name := e];
      return Ok(Rejected), tip, after;
    }
    var read := ReadTip(set0, g);
    if read.Err? {
      return Err(read.error), tip, after;
    }
    tip := read.value;
    if AuthorOf(cs).None? {
      return Err("proposal has no author"), tip, after;
    }
    var author := AuthorOf(cs).value;
    var ok := Govern(set0, read.value, cs, author, e);
    if ok.Err? {
      StuckAt(set0, g.log, g.head, tip, cs, author, e);
      return Err(ok.error), tip, after;
    }
    if !ok.value {
      g.pending := g.pending[name := e];
      return Ok(Held), tip, after;
    }
    var done := Commit(set0, g, tip, read.value.reg, read.value.state, cs, hash, e);
    if done.Err? {
      StuckAt(set0, g.log, g.head, tip, cs, author, e);
      return Err(done.error), tip, after;
    }
    after := done.value;
    g.RemoveProposal(hash);
    r := Ok(Admitted);
  }

  // ---------------------------------------------------------------- replay gives back what was admitted

  lemma PolicyNeedsState(parse: Parser, s: Objects)
    requires PolicyOf(parse, s).Ok?
    ensures s != map[]
  {
  }

  /** A guarded replay leaves a cache that is the registry of the state it leaves. */
  lemma {:induction false} CacheStaysRight(env: Env, s: Objects, genesis: bool, cache: Option<Registry>, chain: seq<Value>, last: Value, stop: Option<string>)
    returns (end: Objects, cache': Option<Registry>)
    requires stop == None && GuardedRun(env, s, genesis, chain)
    requires cache.Some? ==> FromState(env.parse, s) == Ok(cache.value)
    requires CachedUpTo(env, s, genesis, cache, chain, stop).Ok?
    ensures CachedUpTo(env, s, genesis, cache, chain, stop) == Ok(end)
    ensures cache'.Some? ==> FromState(env.parse, end) == Ok(cache'.value)
    ensures CachedUpTo(env, s, genesis, cache, chain + [last], stop) == CachedUpTo(env, end, genesis && chain == [], cache', [last], stop)
    decreases |chain|
  {
    hide FromState, Speculate, TouchesMeta, Apply, Guarded;
    if chain == [] {
      end, cache' := s, cache;
      assert chain + [last] == [last];
    } else {
      var cs := chain[0];
      var chosen := CachedRegistry(env, s, genesis, cache, cs).value;
      var next := Apply(env.sha, chosen.0, s, cs).value;
      if !TouchesMeta(s, cs) {
        DerivedMeansUnclaimed(env, s);
        UntouchedRegistry(env, chosen.0, s, cs);
      }
      assert (chain + [last])[0] == cs && (chain + [last])[1..] == chain[1..] + [last];
      end, cache' := CacheStaysRight(env, next, false, chosen.1, chain[1..], last, stop);
    }
  }

  lemma OneMore(env: Env, s: Objects, cache: Option<Registry>, cs: Value, reg: Registry)
    requires FromState(env.parse, s) == Ok(reg)
    requires cache.Some? ==> cache == Some(reg)
    ensures CachedUpTo(env, s, false, cache, [cs], None) == Apply(env.sha, reg, s, cs)
  {
    hide FromState, TouchesMeta, Apply;
    assert [cs][1..] == [];
  }

  /**
   * When a changeset is admitted with a fresh hash and a parent that names the current tip, the chain is
   * the old chain plus that changeset, and folding it gives the state computed at admission.
   */
  lemma AdmittedReplays(set0: Setting, log: map<string, Value>, head: Option<string>, tip: Tip, cs: Value, hash: string,
                        log': map<string, Value>, head': Option<string>, after: Objects)
    requires IsTip(set0, log, head, tip)
    requires Accepts(set0, tip, cs, hash, log, log', head', after)
    requires Short(hash) !in log && SameTip(FirstParent(cs), head)
    requires GuardedRun(set0.env, map[], true, ChainOf(log, head).value)
    ensures Ends(log', head')
    ensures ChainOf(log', head') == Ok(ChainOf(log, head).value + [cs])
    ensures Folded(set0.env, log', head', None) == Ok(after)
  {
    var env, chain := set0.env, ChainOf(log, head).value;
    PolicyNeedsState(env.parse, tip.state);
    hide GuardedRun, FromState, PolicyOf, Apply;
    SameTipSameChain(log, FirstParent(cs), head);
    AppendExtendsChain(log, FirstParent(cs), cs, hash);
    var end, cache := CacheStaysRight(env, map[], true, None, chain, cs, None);
    assert chain != [];
    OneMore(env, end, cache, cs, tip.reg);
  }

  /** The new chain is guarded again when the changeset was, so admissions can follow one another. */
  lemma {:induction false} GuardedExtends(env: Env, s: Objects, genesis: bool, chain: seq<Value>, cs: Value, end: Objects)
    requires GuardedRun(env, s, genesis, chain)
    requires FoldUpTo(env, s, genesis, chain, None) == Ok(end)
    requires Guarded(end, cs)
    ensures GuardedRun(env, s, genesis, chain + [cs])
    decreases |chain|
  {
    hide FromState, Speculate, TouchesMeta, Apply, Guarded;
    if chain == [] {
      assert chain + [cs] == [cs];
      assert GuardedRun(env, s, genesis, [cs]) by {
        assert [cs][1..] == [];
        assert forall t :: GuardedRun(env, t, false, []);
      }
    } else {
      assert (chain + [cs])[0] == chain[0] && (chain + [cs])[1..] == chain[1..] + [cs];
      var reg := RegistryFor(env, s, genesis, chain[0]).value;
      GuardedExtends(env, Apply(env.sha, reg, s, chain[0]).value, false, chain[1..], cs, end);
    }
  }

  /**
   * Admission itself asks nothing of the parent. In a log filed by hash, what an admission keeps of the
   * chain is decided by one comparison: the chain grows by the changeset if and only if the parent
   * names the document HEAD names. In general it becomes the parent's chain and the changeset.
   */
  lemma AppendFollowsParent(set0: Setting, log: map<string, Value>, head: Option<string>, tip: Tip, cs: Value, hash: string,
                            log': map<string, Value>, head': Option<string>, after: Objects)
    requires IsTip(set0, log, head, tip) && Accepts(set0, tip, cs, hash, log, log', head', after)
    requires FiledByHash(log) && Short(hash) !in log
    ensures (Ends(log', head') && ChainOf(log', head') == Ok(ChainOf(log, head).value + [cs])) <==> SameTip(FirstParent(cs), head)
    ensures Ends(log, FirstParent(cs)) && ChainOf(log, FirstParent(cs)).Ok? ==>
              Ends(log', head') && ChainOf(log', head') == Ok(ChainOf(log, FirstParent(cs)).value + [cs])
  {
    hide FromState, PolicyOf, Apply, FiledByHash, SameTip;
    ExtendsExactly(log, head, cs, hash);
    if Ends(log, FirstParent(cs)) && ChainOf(log, FirstParent(cs)).Ok? {
      AppendExtendsChain(log, FirstParent(cs), cs, hash);
    }
  }

  /**
   * What the fold then gives: the changeset on top of the state its parent's chain folds to, read
   * under that state's schema. Whatever was admitted after the parent is gone from it.
   */
  lemma StaleReplays(set0: Setting, log: map<string, Value>, head: Option<string>, tip: Tip, cs: Value, hash: string,
                     log': map<string, Value>, head': Option<string>, after: Objects, parent: string, base: Objects, reg: Registry)
    requires Accepts(set0, tip, cs, hash, log, log', head', after) && Short(hash) !in log
    requires FirstParent(cs) == Some(parent) && Ends(log, Some(parent)) && Folded(set0.env, log, Some(parent), None) == Ok(base)
    requires FromState(set0.env.parse, base) == Ok(reg)
    requires GuardedRun(set0.env, map[], true, ChainOf(log, Some(parent)).value)
    ensures Ends(log', head') && Folded(set0.env, log', head', None) == Apply(set0.env.sha, reg, base, cs)
  {
    var env, chain := set0.env, ChainOf(log, Some(parent)).value;
    WalkEndsAt(log, parent, Steps(log, parent));
    hide GuardedRun, FromState, Apply;
    AppendExtendsChain(log, Some(parent), cs, hash);
    var end, cache := CacheStaysRight(env, map[], true, None, chain, cs, None);
    OneMore(env, end, cache, cs, reg);
  }

  /** A changeset without a parent starts the graph over: it is folded alone, as a genesis would be. */
  lemma OrphanReplays(set0: Setting, log: map<string, Value>, head: Option<string>, tip: Tip, cs: Value, hash: string,
                      log': map<string, Value>, head': Option<string>, after: Objects)
    requires Accepts(set0, tip, cs, hash, log, log', head', after) && Short(hash) !in log
    requires FirstParent(cs) == None
    ensures Ends(log', head') && ChainOf(log', head') == Ok([cs])
    ensures Folded(set0.env, log', head', None) == FoldUpTo(set0.env, map[], true, [cs], None)
  {
    hide FromState, Apply, TouchesMeta, CachedUpTo, FoldUpTo;
    AppendExtendsChain(log, None, cs, hash);
    assert [] + [cs] == [cs];
    AloneNeedsNoCache(set0.env, map[], cs);
  }

  lemma AloneNeedsNoCache(env: Env, s: Objects, cs: Value)
    ensures CachedUpTo(env, s, true, None, [cs], None) == FoldUpTo(env, s, true, [cs], None)
  {
    hide FromState, Apply, TouchesMeta, Speculate;
    assert [cs][0] == cs && [cs][1..] == [];
    var chosen := CachedRegistry(env, s, true, None, cs);
    assert chosen.Ok? <==> RegistryFor(env, s, true, cs).Ok?;
    if chosen.Ok? {
      var r := Apply(env.sha, chosen.value.0, s, cs);
      if r.Ok? {
        assert CachedUpTo(env, r.value, false, chosen.value.1, [], None) == r == FoldUpTo(env, r.value, false, [], None);
      }
    }
  }

  // ---------------------------------------------------------------- building a changeset

  function HeadList(head: Option<string>): Value {
    match head case None => Seq([]) case Some(h) => Seq([Str(h)])
  }

  /** The unsigned body: the current tip is the only parent. */
  function Body(head: Option<string>, author: string, key: string, timestamp: string, intent: string, schema: string, ops: seq<Value>): map<string, Value> {
    map["kind" := Str("changeset"), "parents" := HeadList(head),
        "author" := Map(map["principal" := Str("principal:" + author), "key" := Str(key)]),
        "timestamp" := Str(timestamp), "intent" := Str(intent), "schema_context" := Str(schema), "operations" := Seq(ops)]
  }

  function Signed(body: map<string, Value>, hash: string, signature: string): Value {
    Map(body["hash" := Str(hash)]["signature" := Str(signature)])
  }

  /** Adding the hash and the signature does not change the hash. */
  lemma HashSurvivesSigning(sha: Sha, body: map<string, Value>, hash: string, signature: string)
    ensures ChangesetHash(sha, Signed(body, hash, signature)) == ChangesetHash(sha, Map(body))
  {
    var signed := Signed(body, hash, signature);
    assert forall k :: k !in UNCOVERED ==> Get(signed, k) == Get(Map(body), k);
    assert Get(signed, "intent") == Get(Map(body), "intent") && Get(signed, "intent_hash") == Get(Map(body), "intent_hash");
    assert Get(signed, "operations") == Get(Map(body), "operations");
    PreimageDetermines(sha, signed.m, body, OpsRoot(sha, signed), OpsRoot(sha, signed));
  }

  lemma BodyFields(head: Option<string>, author: string, key: string, timestamp: string, intent: string, schema: string, ops: seq<Value>)
    ensures var body := Map(Body(head, author, key, timestamp, intent, schema, ops));
            GetSeq(body, "operations") == Some(ops) && Get(body, "parents") == Some(HeadList(head))
  {
  }

  lemma SignedFields(head: Option<string>, author: string, key: string, timestamp: string, intent: string, schema: string, ops: seq<Value>,
                     hash: string, signature: string)
    ensures var cs := Signed(Body(head, author, key, timestamp, intent, schema, ops), hash, signature);
            && AuthorOf(cs) == Some("principal:" + author) && GetStr(cs, "timestamp") == Some(timestamp) && GetStr(cs, "intent") == Some(intent)
            && GetStr(cs, "schema_context") == Some(schema) && GetStr(cs, "signature") == Some(signature)
  {
  }

  /** A built changeset says who made it, when and why, names the tip as its parent, and its stored hash recomputes when it is folded. */
  lemma BuiltChangeset(sha: Sha, head: Option<string>, author: string, key: string, timestamp: string, intent: string, schema: string,
                       ops: seq<Value>, signature: string)
    requires ops != []
    ensures var body := Body(head, author, key, timestamp, intent, schema, ops);
            && ChangesetHash(sha, Map(body)).Ok?
            && var cs := Signed(body, ChangesetHash(sha, Map(body)).value.0, signature);
               FirstParent(cs) == head && CheckHeader(sha, cs) == Ok(ops)
               && AuthorOf(cs) == Some("principal:" + author) && GetStr(cs, "timestamp") == Some(timestamp) && GetStr(cs, "intent") == Some(intent)
               && GetStr(cs, "schema_context") == Some(schema) && GetStr(cs, "signature") == Some(signature)
  {
    var body := Body(head, author, key, timestamp, intent, schema, ops);
    BodyFields(head, author, key, timestamp, intent, schema, ops);
    hide Body;
    BodyHashes(sha, body, ops);
    SignedFields(head, author, key, timestamp, intent, schema, ops, ChangesetHash(sha, Map(body)).value.0, signature);
    SignedHeader(sha, body, head, ops, ChangesetHash(sha, Map(body)).value.0, signature);
  }

  lemma BodyHashes(sha: Sha, body: map<string, Value>, ops: seq<Value>)
    requires ops != [] && GetSeq(Map(body), "operations") == Some(ops)
    ensures ChangesetHash(sha, Map(body)).Ok?
  {
    hide Root, Preimage;
    RootOfLeaves(sha, OPERATIONS, Payloads(ops));
  }

  lemma SignedHeader(sha: Sha, body: map<string, Value>, head: Option<string>, ops: seq<Value>, hash: string, signature: string)
    requires GetSeq(Map(body), "operations") == Some(ops) && Get(Map(body), "parents") == Some(HeadList(head))
    requires ChangesetHash(sha, Map(body)).Ok? && ChangesetHash(sha, Map(body)).value.0 == hash
    ensures FirstParent(Signed(body, hash, signature)) == head
    ensures CheckHeader(sha, Signed(body, hash, signature)) == Ok(ops)
  {
    HashSurvivesSigning(sha, body, hash, signature);
    hide ChangesetHash;
    var cs := Signed(body, hash, signature);
    assert GetSeq(cs, "operations") == Some(ops) && Get(cs, "parents") == Some(HeadList(head));
    assert GetStr(cs, "hash") == Some(hash);
  }
}
