/**
 * Decision records, quorums and attestations (crates/allod-core/src/policy.rs:544-828). Signature
 * verification is a parameter.
 */
module Quorum {
  import opened Text
  import opened Values
  import opened Hashing
  import opened Model
  import opened Objects
  import opened Policy

  /** `sign::verify(public, message, signature)` */
  type Verifier = (string, string, string) -> bool

  datatype Trust = Trust(sha: Sha, verify: Verifier)

  function PolicyContext(sha: Sha, policy: Value): string {
    HashValue(sha, "package", policy)
  }

  const SIGNED_FIELDS: set<string> := {"subject", "policy_context", "verdict", "timestamp"}

  /** The payload every decider signs. */
  function DecisionPayload(sha: Sha, record: Value): Result<string> {
    if exists f | f in SIGNED_FIELDS :: Get(record, f).None? then Err("decision record is missing a field")
    else Ok(HashValue(sha, "decision", Map(map f | f in SIGNED_FIELDS :: Get(record, f).GetOr(Null))))
  }

  /** The principals a role is bound to. */
  function Bindings(policy: Value, role: string): seq<string> {
    match Get(policy, "roles")
    case None => []
    case Some(roles) => Strings(GetSeq(roles, role).GetOr([]))
  }

  function KeyRecords(o: Obj): seq<Value> {
    GetSeq(AttributesOf(o.content), "keys").GetOr([])
  }

  predicate KeyVerifies(verify: Verifier, key: Value, payload: string, signature: string, activeOnly: bool) {
    && (activeOnly ==> GetStr(key, "status") == Some("active"))
    && GetStr(key, "public").Some?
    && verify(GetStr(key, "public").value, payload, signature)
  }

  /** Some key of the principal's record verifies the signature. */
  predicate SignedBy(verify: Verifier, parent: Objects, principal: string, payload: string, signature: string, activeOnly: bool) {
    match FindPrincipal(parent, principal)
    case None => false
    case Some(k) => k in parent && exists key | key in KeyRecords(parent[k]) :: KeyVerifies(verify, key, payload, signature, activeOnly)
  }

  /** An approval of this subject under this policy. */
  predicate Approves(record: Value, subject: string, pctx: string) {
    && GetStr(record, "subject") == Some(subject)
    && GetStr(record, "verdict") == Some("approve")
    && GetStr(record, "policy_context") == Some(pctx)
  }

  function Deciders(record: Value): seq<Value> {
    GetSeq(record, "deciders").GetOr([])
  }

  /** A decider entry that counts: a bound principal whose active key verifies its signature on the record. */
  predicate Counts(trust: Trust, parent: Objects, bindings: seq<string>, payload: string, decider: Value) {
    && GetStr(decider, "principal").Some? && GetStr(decider, "principal").value in bindings
    && GetStr(decider, "signature").Some?
    && SignedBy(trust.verify, parent, GetStr(decider, "principal").value, payload, GetStr(decider, "signature").value, true)
  }

  predicate ApprovedIn(trust: Trust, parent: Objects, bindings: seq<string>, record: Value, principal: string) {
    DecisionPayload(trust.sha, record).Ok? &&
    exists d | d in Deciders(record) ::
      GetStr(d, "principal") == Some(principal) && Counts(trust, parent, bindings, DecisionPayload(trust.sha, record).value, d)
  }

  /** Who has approved, each principal once however often it signed. */
  ghost function Approvers(trust: Trust, parent: Objects, bindings: seq<string>, subject: string, pctx: string, decisions: seq<Value>): set<string> {
    set p | p in bindings && exists r :: r in decisions && Approves(r, subject, pctx) && ApprovedIn(trust, parent, bindings, r, p)
  }

  ghost predicate QuorumMet(trust: Trust, parent: Objects, policy: Value, subject: string, decisions: seq<Value>, r: Reviewers) {
    |Approvers(trust, parent, Bindings(policy, r.0), subject, PolicyContext(trust.sha, policy), decisions)| >= r.1
  }

  /** Every approval of this subject under this policy has all the signed fields. */
  ghost predicate WellFormed(trust: Trust, policy: Value, subject: string, decisions: seq<Value>) {
    forall r :: r in decisions && Approves(r, subject, PolicyContext(trust.sha, policy)) ==> DecisionPayload(trust.sha, r).Ok?
  }

  // ---------------------------------------------------------------- the program's loops

  method CountRecord(trust: Trust, parent: Objects, bindings: seq<string>, record: Value, payload: string, known: set<string>)
    returns (approvals: set<string>)
    requires DecisionPayload(trust.sha, record) == Ok(payload)
    ensures forall p :: p in approvals <==> p in known || (p in bindings && ApprovedIn(trust, parent, bindings, record, p))
  {
    hide SignedBy, DecisionPayload;
    approvals := known;
    var deciders := Deciders(record);
    for i := 0 to |deciders|
      invariant forall p :: p in approvals <==>
                  p in known || exists d :: d in deciders[..i] && GetStr(d, "principal") == Some(p) && Counts(trust, parent, bindings, payload, d)
    {
      var d := deciders[i];
      assert deciders[..i + 1] == deciders[..i] + [d];
      ghost var before := approvals;
      if Counts(trust, parent, bindings, payload, d) {
        approvals := approvals + {GetStr(d, "principal").value};
      }
      assert forall p :: p in approvals <==> p in before || (GetStr(d, "principal") == Some(p) && Counts(trust, parent, bindings, payload, d));
    }
    assert deciders[..|deciders|] == deciders;
  }

  method ApproversLoop(trust: Trust, parent: Objects, bindings: seq<string>, subject: string, pctx: string, decisions: seq<Value>)
    returns (r: Result<set<string>>)
    ensures r.Ok? <==> forall d :: d in decisions && Approves(d, subject, pctx) ==> DecisionPayload(trust.sha, d).Ok?
    ensures r.Ok? ==> r.value == Approvers(trust, parent, bindings, subject, pctx, decisions)
  {
    hide ApprovedIn, DecisionPayload, Approves;
    var approvals: set<string> := {};
    for i := 0 to |decisions|
      invariant forall d :: d in decisions[..i] && Approves(d, subject, pctx) ==> DecisionPayload(trust.sha, d).Ok?
      invariant approvals == Approvers(trust, parent, bindings, subject, pctx, decisions[..i])
    {
      var record := decisions[i];
      assert decisions[..i + 1] == decisions[..i] + [record];
      if Approves(record, subject, pctx) {
        var payload := DecisionPayload(trust.sha, record);
        if payload.Err? {
          return Err(payload.error);
        }
        approvals := CountRecord(trust, parent, bindings, record, payload.value, approvals);
      }
      assert approvals == Approvers(trust, parent, bindings, subject, pctx, decisions[..i + 1]);
    }
    assert decisions[..|decisions|] == decisions;
    r := Ok(approvals);
  }

  /** A requirement that is not met, with the number of approvals it has. */
  datatype Unmet = Unmet(role: string, quorum: nat, have: nat)

  ghost predicate Reported(trust: Trust, parent: Objects, policy: Value, subject: string, reviewers: seq<Reviewers>, decisions: seq<Value>, u: Unmet) {
    && (u.role, u.quorum) in reviewers
    && u.have < u.quorum
    && u.have == |Approvers(trust, parent, Bindings(policy, u.role), subject, PolicyContext(trust.sha, policy), decisions)|
  }

  method ReviewersUnmet(trust: Trust, parent: Objects, policy: Value, subject: string, reviewers: seq<Reviewers>, decisions: seq<Value>)
    returns (r: Result<seq<Unmet>>)
    ensures r.Ok? <==> reviewers == [] || WellFormed(trust, policy, subject, decisions)
    ensures r.Ok? ==> (r.value == [] <==> forall q :: q in reviewers ==> QuorumMet(trust, parent, policy, subject, decisions, q))
    ensures r.Ok? ==> forall u :: u in r.value ==> Reported(trust, parent, policy, subject, reviewers, decisions, u)
  {
    hide Approves, DecisionPayload, Approvers, Bindings, PolicyContext;
    var pctx := PolicyContext(trust.sha, policy);
    var unmet: seq<Unmet> := [];
    for i := 0 to |reviewers|
      invariant i == 0 || WellFormed(trust, policy, subject, decisions)
      invariant unmet == [] <==> forall q :: q in reviewers[..i] ==> QuorumMet(trust, parent, policy, subject, decisions, q)
      invariant forall u :: u in unmet ==> Reported(trust, parent, policy, subject, reviewers, decisions, u)
    {
      var (role, quorum) := reviewers[i];
      ghost var before := unmet;
      assert reviewers[..i + 1] == reviewers[..i] + [reviewers[i]];
      var approvals := ApproversLoop(trust, parent, Bindings(policy, role), subject, pctx, decisions);
      if approvals.Err? {
        return Err(approvals.error);
      }
      assert QuorumMet(trust, parent, policy, subject, decisions, reviewers[i]) <==> |approvals.value| >= quorum;
      if |approvals.value| < quorum {
        unmet := unmet + [Unmet(role, quorum, |approvals.value|)];
      }
      assert unmet == [] <==> before == [] && QuorumMet(trust, parent, policy, subject, decisions, reviewers[i]);
    }
    assert reviewers[..|reviewers|] == reviewers;
    r := Ok(unmet);
  }

  // ---------------------------------------------------------------- attestations

  /** The envelope with its signature omitted, hashed. */
  function EnvelopePayload(sha: Sha, envelope: Value): string {
    HashValue(sha, "envelope", Remove(envelope, "signature"))
  }

  /** Evidence that is absent, or simulated by a trusted measurement, satisfies; anything else fails. */
  predicate EvidenceHolds(envelope: Value, trusted: seq<string>) {
    match GetStr(envelope, "evidence_type")
    case None => true
    case Some(t) =>
      if t == "none" then true
      else if t != "simulated" then false
      else
        var m := match Get(envelope, "evidence") case Some(e) => GetStr(e, "measurement").GetOr("") case None => "";
        m != "" && m in trusted
  }

  /** An envelope over this changeset, signed by a principal of the parent state. The class plays no part. */
  predicate Attests(trust: Trust, parent: Objects, csHash: string, trusted: seq<string>, envelope: Value) {
    && (match Get(envelope, "statement") case Some(s) => GetStr(s, "changeset_hash") == Some(csHash) case None => false)
    && GetStr(envelope, "attester").Some? && GetStr(envelope, "signature").Some?
    && SignedBy(trust.verify, parent, GetStr(envelope, "attester").value, EnvelopePayload(trust.sha, envelope),
                GetStr(envelope, "signature").value, false)
    && EvidenceHolds(envelope, trusted)
  }

  /** Everything a proposal is checked against. */
  datatype Submission = Submission(cs: Value, author: string, roots: seq<string>, decisions: seq<Value>, envelopes: seq<Value>, trusted: seq<string>)

  /** The checklist is satisfied. */
  ghost predicate Satisfied(trust: Trust, parent: Objects, policy: Value, sub: Submission, csHash: string, list: Checklist) {
    && (list.rootRequired ==> sub.author in sub.roots)
    && (forall q :: q in list.reviewers ==> QuorumMet(trust, parent, policy, csHash, sub.decisions, q))
    && (list.attestations != [] ==> exists e :: e in sub.envelopes && Attests(trust, parent, csHash, sub.trusted, e))
  }

  /** Why a checklist is not satisfied. */
  datatype Reason = NeedsRoot | NeedsReviewers(unmet: Unmet) | NeedsAttestation(class_: string)

  /** An attestation a class was satisfied with. */
  datatype Note = Note(class_: string, envelope: Value)

  datatype Verdict = Verdict(unmet: seq<Reason>, notes: seq<Note>)

  /** The reason is a real one. */
  ghost predicate Lacks(trust: Trust, parent: Objects, policy: Value, sub: Submission, csHash: string, list: Checklist, reason: Reason) {
    match reason
    case NeedsRoot => list.rootRequired && sub.author !in sub.roots
    case NeedsReviewers(u) => Reported(trust, parent, policy, csHash, list.reviewers, sub.decisions, u)
    case NeedsAttestation(c) => c in list.attestations && forall e :: e in sub.envelopes ==> !Attests(trust, parent, csHash, sub.trusted, e)
  }

  /** The note is a real one. */
  ghost predicate Noted(trust: Trust, parent: Objects, sub: Submission, csHash: string, classes: seq<string>, note: Note) {
    note.class_ in classes && note.envelope in sub.envelopes && Attests(trust, parent, csHash, sub.trusted, note.envelope)
  }

  /** The envelopes that attest to the changeset, noted for one class. */
  method NotesFor(trust: Trust, parent: Objects, sub: Submission, csHash: string, c: string) returns (notes: seq<Note>)
    ensures forall n :: n in notes <==> Noted(trust, parent, sub, csHash, [c], n)
  {
    hide Attests;
    notes := [];
    var es := sub.envelopes;
    for i := 0 to |es|
      invariant forall n :: n in notes <==> n.class_ == c && n.envelope in es[..i] && Attests(trust, parent, csHash, sub.trusted, n.envelope)
    {
      assert es[..i + 1] == es[..i] + [es[i]];
      ghost var before := notes;
      if Attests(trust, parent, csHash, sub.trusted, es[i]) {
        notes := notes + [Note(c, es[i])];
      }
      assert forall n :: n in notes <==> n in before || (n == Note(c, es[i]) && Attests(trust, parent, csHash, sub.trusted, es[i]));
    }
    assert es[..|es|] == es;
  }

  /** Every class that was asked for, with the envelopes that satisfy it. */
  method CheckAttestations(trust: Trust, parent: Objects, policy: Value, sub: Submission, csHash: string, list: Checklist)
    returns (missing: seq<Reason>, notes: seq<Note>)
    ensures missing == [] <==> list.attestations == [] || exists e :: e in sub.envelopes && Attests(trust, parent, csHash, sub.trusted, e)
    ensures forall r :: r in missing ==> r.NeedsAttestation? && Lacks(trust, parent, policy, sub, csHash, list, r)
    ensures forall n :: n in notes <==> Noted(trust, parent, sub, csHash, list.attestations, n)
  {
    hide Attests;
    missing, notes := [], [];
    var classes := list.attestations;
    ghost var some := exists e :: e in sub.envelopes && Attests(trust, parent, csHash, sub.trusted, e);
    for i := 0 to |classes|
      invariant missing == [] <==> i == 0 || some
      invariant forall r :: r in missing ==> r.NeedsAttestation? && Lacks(trust, parent, policy, sub, csHash, list, r)
      invariant forall n :: n in notes <==> Noted(trust, parent, sub, csHash, classes[..i], n)
    {
      assert classes[..i + 1] == classes[..i] + [classes[i]];
      var found := NotesFor(trust, parent, sub, csHash, classes[i]);
      assert found != [] ==> found[0] in found;
      assert forall e :: e in sub.envelopes && Attests(trust, parent, csHash, sub.trusted, e) ==> Note(classes[i], e) in found;
      if found == [] {
        missing := missing + [NeedsAttestation(classes[i])];
      }
      notes := notes + found;
    }
    assert classes[..|classes|] == classes;
  }

  function Reviewing(unmet: seq<Unmet>): (r: seq<Reason>)
    ensures |r| == |unmet|
    ensures forall x :: x in r <==> x.NeedsReviewers? && x.unmet in unmet
  {
    if unmet == [] then []
    else
      assert unmet == [unmet[0]] + unmet[1..];
      [NeedsReviewers(unmet[0])] + Reviewing(unmet[1..])
  }

  /** Check a proposal's evidence: the reasons it fails, and how its attestations were satisfied. */
  method CheckSatisfied(trust: Trust, parent: Objects, policy: Value, sub: Submission, list: Checklist) returns (r: Result<Verdict>)
    ensures ChangesetHash(trust.sha, sub.cs).Err? ==> r.Err?
    ensures ChangesetHash(trust.sha, sub.cs).Ok? ==>
              var h := ChangesetHash(trust.sha, sub.cs).value.0;
              && (r.Ok? <==> list.reviewers == [] || WellFormed(trust, policy, h, sub.decisions))
              && (r.Ok? ==>
                    && (r.value.unmet == [] <==> Satisfied(trust, parent, policy, sub, h, list))
                    && (forall why :: why in r.value.unmet ==> Lacks(trust, parent, policy, sub, h, list, why))
                    && (forall n :: n in r.value.notes <==> Noted(trust, parent, sub, h, list.attestations, n)))
  {
    hide QuorumMet, Attests, WellFormed, ChangesetHash, Reported, Noted;
    var hashed := ChangesetHash(trust.sha, sub.cs);
    if hashed.Err? {
      return Err(hashed.error);
    }
    var h := hashed.value.0;
    var root := if list.rootRequired && sub.author !in sub.roots then [NeedsRoot] else [];
    var unmet := ReviewersUnmet(trust, parent, policy, h, list.reviewers, sub.decisions);
    if unmet.Err? {
      return Err(unmet.error);
    }
    var missing, notes := CheckAttestations(trust, parent, policy, sub, h, list);
    var all := root + Reviewing(unmet.value) + missing;
    assert all == [] <==> root == [] && unmet.value == [] && missing == [];
    r := Ok(Verdict(all, notes));
  }

  /**
   * The key that verifies an attestation need not be active, and the attester need not be of the class
   * that was asked for: a principal whose only key is revoked satisfies any class, though no decision
   * it signs counts towards a quorum.
   */
  lemma RevokedKeyAttests(trust: Trust, parent: Objects, policy: Value, sub: Submission, csHash: string, k: Key, key: Value, envelope: Value, c: string)
    requires k in parent && KeyRecords(parent[k]) == [key]
    requires GetStr(key, "status") == Some("revoked") && GetStr(key, "public").Some?
    requires envelope in sub.envelopes && Get(envelope, "statement") == Some(Map(map["changeset_hash" := Str(csHash)]))
    requires GetStr(envelope, "attester").Some? && FindPrincipal(parent, GetStr(envelope, "attester").value) == Some(k)
    requires GetStr(envelope, "signature").Some? && GetStr(envelope, "evidence_type") == Some("none")
    requires trust.verify(GetStr(key, "public").value, EnvelopePayload(trust.sha, envelope), GetStr(envelope, "signature").value)
    ensures Satisfied(trust, parent, policy, sub, csHash, Checklist({}, [], [c], false))
    ensures forall bindings, payload, decider :: GetStr(decider, "principal") == GetStr(envelope, "attester") ==>
              !Counts(trust, parent, bindings, payload, decider)
  {
    hide FindPrincipal, KeyRecords, EnvelopePayload;
    assert "revoked"[0] != "active"[0];
    assert key in KeyRecords(parent[k]);
    assert Attests(trust, parent, csHash, sub.trusted, envelope);
  }

  // ---------------------------------------------------------------- more records

  /** Adding records never makes a met requirement unmet. */
  lemma MoreRecords(trust: Trust, parent: Objects, policy: Value, subject: string, decisions: seq<Value>, extra: seq<Value>, r: Reviewers)
    requires QuorumMet(trust, parent, policy, subject, decisions, r)
    ensures QuorumMet(trust, parent, policy, subject, decisions + extra, r)
  {
    hide ApprovedIn, Approves, PolicyContext, Bindings;
    var b, pctx := Bindings(policy, r.0), PolicyContext(trust.sha, policy);
    SubsetSize(Approvers(trust, parent, b, subject, pctx, decisions), Approvers(trust, parent, b, subject, pctx, decisions + extra));
  }

  /** The record approves this subject under this policy, and the only bound principal behind it is `p`. */
  ghost predicate SoleVoice(trust: Trust, parent: Objects, bindings: seq<string>, subject: string, pctx: string, record: Value, p: string) {
    && Approves(record, subject, pctx)
    && forall q :: q in bindings ==> (ApprovedIn(trust, parent, bindings, record, q) <==> q == p)
  }

  /**
   * However many records one principal approves with, whatever their time stamps and signatures, they
   * add that principal once: on their own they meet a quorum of one and no larger one.
   */
  lemma RepeatsCountOnce(trust: Trust, parent: Objects, policy: Value, subject: string, decisions: seq<Value>, again: seq<Value>, p: string, role: string)
    requires again != [] && p in Bindings(policy, role)
    requires forall r :: r in again ==> SoleVoice(trust, parent, Bindings(policy, role), subject, PolicyContext(trust.sha, policy), r, p)
    ensures var b, pctx := Bindings(policy, role), PolicyContext(trust.sha, policy);
            Approvers(trust, parent, b, subject, pctx, decisions + again) == Approvers(trust, parent, b, subject, pctx, decisions) + {p}
    ensures forall n: nat :: QuorumMet(trust, parent, policy, subject, again, (role, n)) <==> n <= 1
  {
    hide ApprovedIn, Approves, PolicyContext, Bindings;
    var b, pctx := Bindings(policy, role), PolicyContext(trust.sha, policy);
    VoicesJoin(trust, parent, b, subject, pctx, decisions, again, p);
    VoicesJoin(trust, parent, b, subject, pctx, [], again, p);
    assert [] + again == again;
    assert Approvers(trust, parent, b, subject, pctx, []) == {};
    hide Approvers;
    assert Approvers(trust, parent, b, subject, pctx, again) == {p};
  }

  lemma VoicesJoin(trust: Trust, parent: Objects, bindings: seq<string>, subject: string, pctx: string, decisions: seq<Value>, again: seq<Value>, p: string)
    requires again != [] && p in bindings
    requires forall r :: r in again ==> SoleVoice(trust, parent, bindings, subject, pctx, r, p)
    ensures Approvers(trust, parent, bindings, subject, pctx, decisions + again) == Approvers(trust, parent, bindings, subject, pctx, decisions) + {p}
  {
    hide ApprovedIn, Approves;
    assert again[0] in again && again[0] in decisions + again;
    assert forall r :: r in decisions + again <==> r in decisions || r in again;
  }

  /** No more approvals than distinct bound principals, so a quorum above that is never met. */
  lemma {:induction false} QuorumBounded(trust: Trust, parent: Objects, bindings: seq<string>, subject: string, pctx: string, decisions: seq<Value>)
    ensures |Approvers(trust, parent, bindings, subject, pctx, decisions)| <= |(set p | p in bindings)|
  {
    hide ApprovedIn, Approves;
    SubsetSize(Approvers(trust, parent, bindings, subject, pctx, decisions), set p | p in bindings);
  }
}
