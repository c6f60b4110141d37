/**
 * What it takes to satisfy a policy (crates/allod-core/src/policy.rs:544-828,
 * crates/allod-graph/src/flows.rs:260-340): who a principal is, which signature by whom on what counts as an
 * approval or an attestation, and when a changeset is governed.
 */
module Approvals {
  import opened Text
  import opened Values
  import opened Hashing
  import opened Model
  import opened Objects
  import opened Store
  import opened Policy
  import opened Quorum
  import Registries
  import opened Selectors
  import opened Admission

  // ---------------------------------------------------------------- principals

  /** The kind of principal a live node of this type stands for. */
  ghost predicate KindIs(t: string, kind: string) {
    (t, kind) in {("core/User", "user"), ("core/Agent", "agent"), ("core/Service", "service")}
  }

  ghost predicate Person(s: Objects, k: Key, name: string) {
    && k in s && k.0 == "node" && !s[k].deleted
    && Bare(GetStr(s[k].content, "type").GetOr("")) in {"core/User", "core/Agent", "core/Service"}
    && Get(s[k].content, "attributes").Some? && GetStr(Get(s[k].content, "attributes").value, "display_name") == Some(name)
  }

  /** The reference names the least principal of the display name that follows `principal:`. */
  ghost predicate Denotes(s: Objects, reference: string, k: Key) {
    exists name :: reference == "principal:" + name && Person(s, k, name) && forall j :: Person(s, j, name) ==> j == k || Before(k, j)
  }

  lemma PersonIs(s: Objects, k: Key, name: string)
    ensures Person(s, k, name) <==> IsPrincipal(s, k, name)
  {
    hide Bare;
  }

  lemma DenotesIs(s: Objects, reference: string, k: Key)
    ensures Denotes(s, reference, k) <==> FindPrincipal(s, reference) == Some(k)
  {
    if "principal:" <= reference {
      var name := reference[|"principal:"|..];
      assert reference == "principal:" + name;
      assert forall other :: reference == "principal:" + other ==> other == reference[|"principal:"|..];
      hide *;
      DenotesName(s, name, k);
      assert forall other :: reference == "principal:" + other ==> other == name;
      OnlyName(s, reference, name, k);
    } else {
      assert forall name :: reference != "principal:" + name;
      assert StripPrefix(reference, "principal:") == None;
      hide Person, FirstPrincipal, InOrder;
    }
  }

  /** The key is the least principal of that display name. */
  ghost predicate Least(s: Objects, name: string, k: Key) {
    Person(s, k, name) && forall j :: Person(s, j, name) ==> j == k || Before(k, j)
  }

  lemma OnlyName(s: Objects, reference: string, name: string, k: Key)
    requires reference == "principal:" + name && forall other :: reference == "principal:" + other ==> other == name
    ensures Denotes(s, reference, k) <==> Least(s, name, k)
  {
    hide Person, Before;
  }

  lemma DenotesName(s: Objects, name: string, k: Key)
    ensures Least(s, name, k) <==> FindPrincipal(s, "principal:" + name) == Some(k)
  {
    FindPrincipalIs(s, name);
    forall j ensures Person(s, j, name) <==> IsPrincipal(s, j, name) {
      PersonIs(s, j, name);
    }
    PersonsLive(s, name);
    hide Person, IsPrincipal, FindPrincipal, Before;
    var found := FindPrincipal(s, "principal:" + name);
    if Least(s, name, k) {
      var j := found.value;
      if j != k {
        BeforeOnce(j, k);
      }
    }
  }

  lemma PersonsLive(s: Objects, name: string)
    ensures forall k :: Person(s, k, name) ==> k in s
  {
  }

  lemma BeforeOnce(a: Key, b: Key)
    ensures !(Before(a, b) && Before(b, a))
  {
    BeforeIsOrder();
    hide Before;
  }

  /** The kind of an author is that of the principal its reference denotes; there is none when it denotes none. */
  lemma AuthorKindIs(s: Objects, author: string, kind: string)
    ensures AuthorKind(s, author) == Ok(kind) <==>
            exists k :: Denotes(s, author, k) && k in s && KindIs(Bare(GetStr(s[k].content, "type").GetOr("")), kind)
  {
    forall k ensures Denotes(s, author, k) <==> FindPrincipal(s, author) == Some(k) {
      DenotesIs(s, author, k);
    }
    forall t ensures PrincipalKind(t) == Some(kind) <==> KindIs(t, kind) {
      Kinds();
    }
    hide Denotes, FindPrincipal, PrincipalKind, KindIs, Bare, GetStr;
  }

  lemma Kinds()
    ensures |"core/User"| == 9 && |"core/Agent"| == 10 && |"core/Service"| == 12
  {
  }

  // ---------------------------------------------------------------- signatures

  /** A key of the principal verifies the signature, an active one if that is asked. */
  ghost predicate Verified(verify: Verifier, s: Objects, principal: string, message: string, signature: string, activeOnly: bool) {
    exists k, key :: Denotes(s, principal, k) && k in s && Holder(s[k].content, key) && Verifying(verify, key, message, signature, activeOnly)
  }

  ghost predicate Holder(content: Value, key: Value) {
    Get(content, "attributes").Some? && GetSeq(Get(content, "attributes").value, "keys").Some?
    && key in GetSeq(Get(content, "attributes").value, "keys").value
  }

  ghost predicate Verifying(verify: Verifier, key: Value, message: string, signature: string, activeOnly: bool) {
    && GetStr(key, "public").Some? && verify(GetStr(key, "public").value, message, signature)
    && (activeOnly ==> GetStr(key, "status") == Some("active"))
  }

  lemma VerifiedIs(verify: Verifier, s: Objects, principal: string, message: string, signature: string, activeOnly: bool)
    ensures Verified(verify, s, principal, message, signature, activeOnly) <==> SignedBy(verify, s, principal, message, signature, activeOnly)
  {
    forall k ensures Denotes(s, principal, k) <==> FindPrincipal(s, principal) == Some(k) {
      DenotesIs(s, principal, k);
    }
    forall k, key | k in s ensures Holder(s[k].content, key) <==> key in KeyRecords(s[k]) {
    }
    forall key ensures Verifying(verify, key, message, signature, activeOnly) <==> KeyVerifies(verify, key, message, signature, activeOnly) {
    }
    hide Denotes, FindPrincipal, Holder, KeyRecords, Verifying, KeyVerifies;
  }

  // ---------------------------------------------------------------- approvals

  /** What the deciders of a record sign: the hash of its subject, policy context, verdict and time stamp. */
  ghost function Signing(sha: Sha, record: Value): Option<string> {
    if Get(record, "subject").Some? && Get(record, "policy_context").Some? && Get(record, "verdict").Some? && Get(record, "timestamp").Some? then
      Some(HashValue(sha, "decision", Map(map["subject" := Get(record, "subject").value, "policy_context" := Get(record, "policy_context").value,
                                               "verdict" := Get(record, "verdict").value, "timestamp" := Get(record, "timestamp").value])))
    else None
  }

  lemma SigningIs(sha: Sha, record: Value)
    ensures Signing(sha, record).Some? <==> DecisionPayload(sha, record).Ok?
    ensures Signing(sha, record).Some? ==> DecisionPayload(sha, record) == Ok(Signing(sha, record).value)
  {
    hide HashValue;
    if Signing(sha, record).Some? {
      assert (map f | f in SIGNED_FIELDS :: Get(record, f).GetOr(Null)) ==
             map["subject" := Get(record, "subject").value, "policy_context" := Get(record, "policy_context").value,
                 "verdict" := Get(record, "verdict").value, "timestamp" := Get(record, "timestamp").value];
    }
  }

  /** The record approves the changeset under the policy. */
  ghost predicate InFavour(sha: Sha, policy: Value, csHash: string, record: Value) {
    && Get(record, "subject") == Some(Str(csHash)) && Get(record, "verdict") == Some(Str("approve"))
    && Get(record, "policy_context") == Some(Str(HashValue(sha, "package", policy)))
  }

  ghost predicate Bound(policy: Value, role: string, principal: string) {
    Get(policy, "roles").Some? && GetSeq(Get(policy, "roles").value, role).Some? && Str(principal) in GetSeq(Get(policy, "roles").value, role).value
  }

  /** The principal, bound to the role, has an active key that verifies its signature on a record in favour. */
  ghost predicate SignsOff(trust: Trust, s: Objects, policy: Value, role: string, csHash: string, record: Value, principal: string) {
    && InFavour(trust.sha, policy, csHash, record) && Signing(trust.sha, record).Some?
    && Bound(policy, role, principal)
    && GetSeq(record, "deciders").Some?
    && exists d :: d in GetSeq(record, "deciders").value && Decides(trust, s, Signing(trust.sha, record).value, d, principal)
  }

  ghost predicate Decides(trust: Trust, s: Objects, message: string, decider: Value, principal: string) {
    && GetStr(decider, "principal") == Some(principal) && GetStr(decider, "signature").Some?
    && Verified(trust.verify, s, principal, message, GetStr(decider, "signature").value, true)
  }

  lemma BoundIs(policy: Value, role: string, principal: string)
    ensures Bound(policy, role, principal) <==> principal in Bindings(policy, role)
  {
    if Get(policy, "roles").Some? {
      var items := GetSeq(Get(policy, "roles").value, role).GetOr([]);
      assert principal in Strings(items) <==> Str(principal) in items;
      hide Strings;
    }
  }

  lemma DecidesIs(trust: Trust, s: Objects, bindings: seq<string>, message: string, decider: Value, principal: string)
    requires principal in bindings
    ensures Decides(trust, s, message, decider, principal) <==> GetStr(decider, "principal") == Some(principal) && Counts(trust, s, bindings, message, decider)
  {
    if GetStr(decider, "signature").Some? {
      VerifiedIs(trust.verify, s, principal, message, GetStr(decider, "signature").value, true);
    }
    hide Verified, SignedBy, GetStr;
  }

  lemma InFavourIs(sha: Sha, policy: Value, csHash: string, record: Value)
    ensures InFavour(sha, policy, csHash, record) <==> Approves(record, csHash, PolicyContext(sha, policy))
  {
    hide HashValue;
  }

  lemma SignsOffIs(trust: Trust, s: Objects, policy: Value, role: string, csHash: string, record: Value, principal: string)
    ensures SignsOff(trust, s, policy, role, csHash, record, principal) <==>
            && principal in Bindings(policy, role) && Approves(record, csHash, PolicyContext(trust.sha, policy))
            && ApprovedIn(trust, s, Bindings(policy, role), record, principal)
  {
    BoundIs(policy, role, principal);
    SigningIs(trust.sha, record);
    InFavourIs(trust.sha, policy, csHash, record);
    var bindings := Bindings(policy, role);
    if principal in bindings && DecisionPayload(trust.sha, record).Ok? {
      var message := DecisionPayload(trust.sha, record).value;
      forall d ensures Decides(trust, s, message, d, principal) <==> GetStr(d, "principal") == Some(principal) && Counts(trust, s, bindings, message, d) {
        DecidesIs(trust, s, bindings, message, d, principal);
      }
    }
    hide InFavour, Approves, Bound, Bindings, Signing, DecisionPayload, Decides, Counts, GetStr, PolicyContext;
  }

  /** So many different principals sign off on the changeset, each in some record. */
  ghost predicate Backed(trust: Trust, s: Objects, policy: Value, role: string, csHash: string, decisions: seq<Value>, quorum: nat) {
    exists ps: set<string> :: |ps| == quorum && forall p :: p in ps ==> exists r :: r in decisions && SignsOff(trust, s, policy, role, csHash, r, p)
  }

  lemma SubsetOfSize(all: set<string>, n: nat) returns (some: set<string>)
    requires n <= |all|
    ensures some <= all && |some| == n
    decreases |all|
  {
    if n == |all| {
      some := all;
    } else {
      var x :| x in all;
      some := SubsetOfSize(all - {x}, n);
    }
  }

  lemma ApproversAre(trust: Trust, s: Objects, policy: Value, role: string, csHash: string, decisions: seq<Value>, p: string)
    ensures p in Approvers(trust, s, Bindings(policy, role), csHash, PolicyContext(trust.sha, policy), decisions) <==>
            exists r :: r in decisions && SignsOff(trust, s, policy, role, csHash, r, p)
  {
    forall r ensures SignsOff(trust, s, policy, role, csHash, r, p) <==>
                     && p in Bindings(policy, role) && Approves(r, csHash, PolicyContext(trust.sha, policy))
                     && ApprovedIn(trust, s, Bindings(policy, role), r, p) {
      SignsOffIs(trust, s, policy, role, csHash, r, p);
    }
    hide SignsOff, Approves, ApprovedIn, Bindings, PolicyContext;
  }

  /** A quorum is met when that many different principals sign off. */
  lemma QuorumIs(trust: Trust, s: Objects, policy: Value, role: string, csHash: string, decisions: seq<Value>, quorum: nat)
    ensures QuorumMet(trust, s, policy, csHash, decisions, (role, quorum)) <==> Backed(trust, s, policy, role, csHash, decisions, quorum)
  {
    var all := Approvers(trust, s, Bindings(policy, role), csHash, PolicyContext(trust.sha, policy), decisions);
    assert QuorumMet(trust, s, policy, csHash, decisions, (role, quorum)) <==> |all| >= quorum;
    hide QuorumMet, SignsOff, Approvers, Bindings, PolicyContext;
    forall p ensures p in all <==> exists r :: r in decisions && SignsOff(trust, s, policy, role, csHash, r, p) {
      ApproversAre(trust, s, policy, role, csHash, decisions, p);
    }
    if |all| >= quorum {
      var ps := SubsetOfSize(all, quorum);
      assert |ps| == quorum && forall p :: p in ps ==> p in all;
    }
    if ps: set<string> :| |ps| == quorum && forall p :: p in ps ==> exists r :: r in decisions && SignsOff(trust, s, policy, role, csHash, r, p) {
      assert ps <= all;
      SubsetSize(ps, all);
    }
  }

  // ---------------------------------------------------------------- attestations

  /** The envelope names the changeset, a key of its attester verifies it without its signature, and its evidence is in order. */
  ghost predicate Attested(trust: Trust, s: Objects, csHash: string, trusted: seq<string>, envelope: Value) {
    && Get(envelope, "statement").Some? && GetStr(Get(envelope, "statement").value, "changeset_hash") == Some(csHash)
    && envelope.Map? && GetStr(envelope, "attester").Some? && GetStr(envelope, "signature").Some?
    && Verified(trust.verify, s, GetStr(envelope, "attester").value, HashValue(trust.sha, "envelope", Map(envelope.m - {"signature"})),
                GetStr(envelope, "signature").value, false)
    && (GetStr(envelope, "evidence_type") in {None, Some("none")} || (GetStr(envelope, "evidence_type") == Some("simulated") && Measured(envelope, trusted)))
  }

  /** The evidence names a trusted measurement. */
  ghost predicate Measured(envelope: Value, trusted: seq<string>) {
    Get(envelope, "evidence").Some? &&
    match GetStr(Get(envelope, "evidence").value, "measurement") case Some(m) => m != "" && m in trusted case None => false
  }

  lemma EvidenceIs(envelope: Value, trusted: seq<string>)
    ensures EvidenceHolds(envelope, trusted) <==>
            GetStr(envelope, "evidence_type") in {None, Some("none")} || (GetStr(envelope, "evidence_type") == Some("simulated") && Measured(envelope, trusted))
  {
    assert |"none"| == 4 && |"simulated"| == 9;
  }

  /** An attestation is an envelope over the changeset that an attester's key, active or not, verifies. */
  lemma AttestedIs(trust: Trust, s: Objects, csHash: string, trusted: seq<string>, envelope: Value)
    ensures Attests(trust, s, csHash, trusted, envelope) <==> Attested(trust, s, csHash, trusted, envelope)
  {
    EvidenceIs(envelope, trusted);
    if envelope.Map? && GetStr(envelope, "attester").Some? && GetStr(envelope, "signature").Some? {
      assert EnvelopePayload(trust.sha, envelope) == HashValue(trust.sha, "envelope", Map(envelope.m - {"signature"}));
      VerifiedIs(trust.verify, s, GetStr(envelope, "attester").value, EnvelopePayload(trust.sha, envelope), GetStr(envelope, "signature").value, false);
    }
    hide EvidenceHolds, Measured, Verified, SignedBy, EnvelopePayload, HashValue;
  }

  // ---------------------------------------------------------------- some checklist is the union

  lemma {:induction false} Listed<T>(all: set<T>) returns (list: seq<T>)
    ensures Distinct(list) && forall x :: x in list <==> x in all
    decreases |all|
  {
    if all == {} {
      list := [];
    } else {
      var x :| x in all;
      var rest := Listed(all - {x});
      list := [x] + rest;
    }
  }

  lemma SomeUnion(reg: Registries.Registry, rules: seq<Value>, authorKind: string, ctxs: seq<OpContext>, restricted: bool) returns (list: Checklist)
    ensures IsUnion(reg, rules, authorKind, ctxs, restricted, list)
  {
    hide RuleMatches, Unmatched;
    var fired := set rule | rule in rules && Matched(reg, rules, authorKind, ctxs, rule);
    assert forall rule :: rule in fired <==> Matched(reg, rules, authorKind, ctxs, rule);
    MatchedIsRule(reg, rules, authorKind, ctxs);
    hide Matched;
    var named := set rule | rule in fired && GetStr(rule, "name").Some? :: GetStr(rule, "name").value;
    var reviewers := AllAsked(fired);
    var attestations := AllClasses(fired);
    list := Checklist(named, reviewers, attestations, restricted && exists c :: c in ctxs && Unmatched(reg, rules, authorKind, c));
    hide AsksReviewers, AskedClass, GetStr, Distinct;
  }

  lemma AllAsked(fired: set<Value>) returns (reviewers: seq<Reviewers>)
    requires forall rule :: rule in fired ==> Get(rule, "require").Some?
    ensures Distinct(reviewers)
    ensures forall r :: r in reviewers <==> exists rule :: rule in fired && AsksReviewers(Get(rule, "require").value, r)
  {
    hide AsksReviewers, AskedBy, Get;
    forall require, r ensures r in AskedBy(require) <==> AsksReviewers(require, r) {
      AskedByIs(require, r);
    }
    var asked := set rule, r | rule in fired && r in AskedBy(Get(rule, "require").value) :: r;
    reviewers := Listed(asked);
    hide Distinct;
    forall r | r in reviewers ensures exists rule :: rule in fired && AsksReviewers(Get(rule, "require").value, r) {
      var rule :| rule in fired && r in AskedBy(Get(rule, "require").value);
    }
    forall rule, r | rule in fired && AsksReviewers(Get(rule, "require").value, r) ensures r in reviewers {
      assert r in AskedBy(Get(rule, "require").value);
    }
  }

  ghost function AskedBy(require: Value): set<Reviewers> {
    set e | e in ReviewerEntries(require) && ReviewersIn(e).Some? :: ReviewersIn(e).value
  }

  lemma AskedByIs(require: Value, r: Reviewers)
    ensures r in AskedBy(require) <==> AsksReviewers(require, r)
  {
    hide ReviewersIn, ReviewerEntries;
  }

  lemma AllClasses(fired: set<Value>) returns (classes: seq<string>)
    requires forall rule :: rule in fired ==> Get(rule, "require").Some?
    ensures Distinct(classes)
    ensures forall c :: c in classes <==> exists rule :: rule in fired && AskedClass(Get(rule, "require").value) == Some(c)
  {
    hide AskedClass, Get;
    var asked := set rule | rule in fired && AskedClass(Get(rule, "require").value).Some? :: AskedClass(Get(rule, "require").value).value;
    classes := Listed(asked);
  }

  lemma MatchedIsRule(reg: Registries.Registry, rules: seq<Value>, authorKind: string, ctxs: seq<OpContext>)
    ensures forall rule :: Matched(reg, rules, authorKind, ctxs, rule) ==> Get(rule, "require").Some?
  {
    hide SelectorMatches;
  }

  // ---------------------------------------------------------------- when a changeset is governed

  /** Each role a rule that fires asks for has the sign-offs it asks for. */
  ghost predicate AllBacked(set0: Setting, tip: Tip, rules: seq<Value>, kind: string, ctxs: seq<OpContext>, h: string, e: Evidence) {
    forall rule, role, quorum: nat ::
      FiresOn(tip.reg, kind, rules, ctxs, rule) && AsksFor(Get(rule, "require").value, role, quorum) ==>
      Backed(set0.trust, tip.state, tip.policy, role, h, e.decisions, quorum)
  }

  /** If a rule that fires asks for an attestation, there is one. */
  ghost predicate AllAttested(set0: Setting, tip: Tip, rules: seq<Value>, kind: string, ctxs: seq<OpContext>, h: string, e: Evidence) {
    forall rule, c ::
      FiresOn(tip.reg, kind, rules, ctxs, rule) && AsksClass(Get(rule, "require").value, c) ==>
      exists envelope :: envelope in e.envelopes && Attested(set0.trust, tip.state, h, set0.trusted, envelope)
  }

  /** Everything the rules that fire ask for is there; operations no rule fires on need a root, unless the posture is open. */
  ghost predicate Granted(set0: Setting, tip: Tip, rules: seq<Value>, kind: string, ctxs: seq<OpContext>, author: string, h: string, e: Evidence) {
    && AllBacked(set0, tip, rules, kind, ctxs, h, e) && AllAttested(set0, tip, rules, kind, ctxs, h, e)
    && (GetStr(tip.policy, "default_posture") in {None, Some("restricted")} && author !in set0.roots ==>
          forall ctx :: ctx in ctxs ==> exists rule :: rule in rules && Fires(tip.reg, kind, rule, ctx))
  }

  lemma GrantedIs(set0: Setting, tip: Tip, cs: Value, rules: seq<Value>, kind: string, ctxs: seq<OpContext>, author: string, h: string, e: Evidence, list: Checklist)
    requires IsUnion(tip.reg, rules, kind, ctxs, IsRestricted(tip.policy), list)
    ensures Satisfied(set0.trust, tip.state, tip.policy, SubmissionOf(set0, cs, author, e), h, list) <==>
            Granted(set0, tip, rules, kind, ctxs, author, h, e)
  {
    hide *;
    ChecklistIs(tip.reg, tip.policy, rules, kind, ctxs, list);
    MatchedRequires(tip.reg, kind, rules, ctxs);
    BackedIs(set0, tip, rules, kind, ctxs, h, e, list);
    AllAttestedIs(set0, tip, rules, kind, ctxs, h, e, list);
    Together(set0, tip, cs, rules, kind, ctxs, author, h, e, list);
  }

  lemma Together(set0: Setting, tip: Tip, cs: Value, rules: seq<Value>, kind: string, ctxs: seq<OpContext>, author: string, h: string, e: Evidence, list: Checklist)
    requires (forall q :: q in list.reviewers ==> QuorumMet(set0.trust, tip.state, tip.policy, h, e.decisions, q)) <==>
             AllBacked(set0, tip, rules, kind, ctxs, h, e)
    requires (list.attestations == [] || exists v :: v in e.envelopes && Attests(set0.trust, tip.state, h, set0.trusted, v)) <==>
             AllAttested(set0, tip, rules, kind, ctxs, h, e)
    requires list.rootRequired <==>
               && GetStr(tip.policy, "default_posture") in {None, Some("restricted")}
               && exists ctx :: ctx in ctxs && forall rule :: rule in rules ==> !Fires(tip.reg, kind, rule, ctx)
    ensures Satisfied(set0.trust, tip.state, tip.policy, SubmissionOf(set0, cs, author, e), h, list) <==>
            Granted(set0, tip, rules, kind, ctxs, author, h, e)
  {
    hide QuorumMet, AllBacked, AllAttested, Attests, Fires, GetStr;
  }

  lemma BackedIs(set0: Setting, tip: Tip, rules: seq<Value>, kind: string, ctxs: seq<OpContext>, h: string, e: Evidence, list: Checklist)
    requires forall rule :: FiresOn(tip.reg, kind, rules, ctxs, rule) ==> Get(rule, "require").Some?
    requires forall role, quorum: nat :: (role, quorum) in list.reviewers <==>
               exists rule :: FiresOn(tip.reg, kind, rules, ctxs, rule) && AsksFor(Get(rule, "require").value, role, quorum)
    ensures (forall q :: q in list.reviewers ==> QuorumMet(set0.trust, tip.state, tip.policy, h, e.decisions, q)) <==>
            AllBacked(set0, tip, rules, kind, ctxs, h, e)
  {
    hide FiresOn, AsksFor, QuorumMet, Backed;
    forall role, quorum: nat
      ensures QuorumMet(set0.trust, tip.state, tip.policy, h, e.decisions, (role, quorum)) <==>
              Backed(set0.trust, tip.state, tip.policy, role, h, e.decisions, quorum) {
      QuorumIs(set0.trust, tip.state, tip.policy, role, h, e.decisions, quorum);
    }
    if AllBacked(set0, tip, rules, kind, ctxs, h, e) {
      forall q | q in list.reviewers ensures QuorumMet(set0.trust, tip.state, tip.policy, h, e.decisions, q) {
        assert (q.0, q.1) in list.reviewers;
        var rule :| FiresOn(tip.reg, kind, rules, ctxs, rule) && AsksFor(Get(rule, "require").value, q.0, q.1);
        assert Backed(set0.trust, tip.state, tip.policy, q.0, h, e.decisions, q.1);
      }
    }
    if forall q :: q in list.reviewers ==> QuorumMet(set0.trust, tip.state, tip.policy, h, e.decisions, q) {
      forall rule, role, quorum: nat | FiresOn(tip.reg, kind, rules, ctxs, rule) && AsksFor(Get(rule, "require").value, role, quorum)
        ensures Backed(set0.trust, tip.state, tip.policy, role, h, e.decisions, quorum) {
        assert (role, quorum) in list.reviewers;
      }
    }
  }

  lemma AllAttestedIs(set0: Setting, tip: Tip, rules: seq<Value>, kind: string, ctxs: seq<OpContext>, h: string, e: Evidence, list: Checklist)
    requires forall rule :: FiresOn(tip.reg, kind, rules, ctxs, rule) ==> Get(rule, "require").Some?
    requires forall c :: c in list.attestations <==>
               exists rule :: FiresOn(tip.reg, kind, rules, ctxs, rule) && AsksClass(Get(rule, "require").value, c)
    ensures (list.attestations == [] || exists v :: v in e.envelopes && Attests(set0.trust, tip.state, h, set0.trusted, v)) <==>
            AllAttested(set0, tip, rules, kind, ctxs, h, e)
  {
    hide FiresOn, AsksClass, Attests, Attested;
    forall v ensures Attests(set0.trust, tip.state, h, set0.trusted, v) <==> Attested(set0.trust, tip.state, h, set0.trusted, v) {
      AttestedIs(set0.trust, tip.state, h, set0.trusted, v);
    }
    var some := exists v :: v in e.envelopes && Attested(set0.trust, tip.state, h, set0.trusted, v);
    if AllAttested(set0, tip, rules, kind, ctxs, h, e) && list.attestations != [] {
      var c := list.attestations[0];
      assert c in list.attestations;
      var rule :| FiresOn(tip.reg, kind, rules, ctxs, rule) && AsksClass(Get(rule, "require").value, c);
      assert some;
    }
    if list.attestations == [] || some {
      forall rule, c | FiresOn(tip.reg, kind, rules, ctxs, rule) && AsksClass(Get(rule, "require").value, c) ensures some {
        assert c in list.attestations;
      }
    }
  }

  /**
   * The changeset is governed exactly when its author is a principal, every operation can be read, and what
   * the rules that fire on the operations ask for is there.
   */
  lemma GovernedIs(set0: Setting, tip: Tip, cs: Value, author: string, e: Evidence)
    ensures Governed(set0, tip, cs, author, e) <==>
            && AuthorKind(tip.state, author).Ok? && OpContexts(tip.reg, tip.state, cs).Ok? && GetSeq(tip.policy, "rules").Some?
            && ChangesetHash(set0.trust.sha, cs).Ok?
            && Granted(set0, tip, GetSeq(tip.policy, "rules").value, AuthorKind(tip.state, author).value, OpContexts(tip.reg, tip.state, cs).value,
                       author, ChangesetHash(set0.trust.sha, cs).value.0, e)
  {
    hide IsUnion, Satisfied, Granted, OpContexts, AuthorKind, ChangesetHash, IsRestricted;
    if AuthorKind(tip.state, author).Ok? && OpContexts(tip.reg, tip.state, cs).Ok? && GetSeq(tip.policy, "rules").Some? && ChangesetHash(set0.trust.sha, cs).Ok? {
      var rules, kind := GetSeq(tip.policy, "rules").value, AuthorKind(tip.state, author).value;
      var ctxs, h := OpContexts(tip.reg, tip.state, cs).value, ChangesetHash(set0.trust.sha, cs).value.0;
      var some := SomeUnion(tip.reg, rules, kind, ctxs, IsRestricted(tip.policy));
      assert IsUnionAt(set0, tip, cs, author, some);
      forall list | IsUnionAt(set0, tip, cs, author, list)
        ensures Satisfied(set0.trust, tip.state, tip.policy, SubmissionOf(set0, cs, author, e), h, list) <==>
                Granted(set0, tip, rules, kind, ctxs, author, h, e) {
        GrantedIs(set0, tip, cs, rules, kind, ctxs, author, h, e, list);
      }
    }
  }
}
