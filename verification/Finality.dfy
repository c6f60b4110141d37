/**
 * Decisions one after the other (crates/allod-graph/src/flows.rs:473-582): a rejection is final among
 * decisions, whatever records follow; submitting the changeset again is what undoes it
 * (crates/allod-graph/src/ops.rs:215-269).
 */
module Finality {
  import opened Text
  import opened Values
  import opened Store
  import opened Admission

  /** What a later decision finds: once rejected, always refused. */
  lemma RejectionShows(pending: map<string, Evidence>, hash: string, record: Value)
    requires GetStr(record, "verdict") == Some("reject")
    ensures IsRejected(pending[Short(hash) := Decided(pending, hash, record)], hash)
  {
    hide Short, GetStr;
    var decisions := Decided(pending, hash, record).decisions;
    assert decisions[|decisions| - 1] == record;
  }

  /** After a rejection every further decision on the proposal is an error, whatever its record says, and changes nothing. */
  method RejectThenDecide(set0: Setting, g: Graph, hash: string, first: Value, second: Value) returns (one: Result<Outcome>, other: Result<Outcome>)
    requires Ends(g.log, g.head)
    modifies g
    ensures one == Ok(Rejected) ==> other.Err? && IsRejected(g.pending, hash)
    ensures one == Ok(Rejected) ==>
              g.log == old(g.log) && g.head == old(g.head) && g.proposals == old(g.proposals) && g.evidence == old(g.evidence)
    ensures one == Ok(Rejected) ==> g.pending == old(g.pending)[Short(hash) := Decided(old(g.pending), hash, first)]
  {
    hide Ends, IsTip, Governed, Accepts, Stuck, Open, FitsProposal, AuthorOf;
    ghost var tip, after;
    one, tip, after := DecideWithRecord(set0, g, hash, first);
    if one != Ok(Rejected) {
      return one, one;
    }
    RejectionShows(old(g.pending), hash, first);
    hide IsRejected, Decided;
    other, tip, after := DecideWithRecord(set0, g, hash, second);
  }

  /**
   * Any number of records on one proposal, until one of them admits it: at most one rejects, and all
   * that come after it are errors that leave the graph alone.
   */
  method DecideInTurn(set0: Setting, g: Graph, hash: string, records: seq<Value>) returns (outcomes: seq<Result<Outcome>>)
    requires Ends(g.log, g.head)
    modifies g
    ensures |outcomes| <= |records|
    ensures |outcomes| < |records| ==> outcomes != [] && outcomes[|outcomes| - 1] == Ok(Admitted)
    ensures forall i :: 0 <= i < |outcomes| - 1 ==> outcomes[i] != Ok(Admitted)
    ensures forall i, j :: 0 <= i < j < |outcomes| && outcomes[i] == Ok(Rejected) ==> outcomes[j].Err?
    ensures (exists i :: 0 <= i < |outcomes| && outcomes[i] == Ok(Rejected)) ==>
              IsRejected(g.pending, hash) && g.log == old(g.log) && g.head == old(g.head) && g.proposals == old(g.proposals)
    ensures IsRejected(old(g.pending), hash) ==> (forall i :: 0 <= i < |outcomes| ==> outcomes[i].Err?) && g.pending == old(g.pending)
  {
    hide Ends, IsTip, Governed, Accepts, Stuck, FitsProposal, AuthorOf, IsRejected, Decided;
    outcomes := [];
    for i := 0 to |records|
      invariant |outcomes| == i && Ends(g.log, g.head)
      invariant g.log == old(g.log) && g.head == old(g.head) && g.proposals == old(g.proposals)
      invariant forall j :: 0 <= j < i ==> outcomes[j] != Ok(Admitted)
      invariant forall j, k :: 0 <= j < k < i && outcomes[j] == Ok(Rejected) ==> outcomes[k].Err?
      invariant (exists j :: 0 <= j < i && outcomes[j] == Ok(Rejected)) ==> IsRejected(g.pending, hash)
      invariant IsRejected(old(g.pending), hash) ==> (forall j :: 0 <= j < i ==> outcomes[j].Err?) && g.pending == old(g.pending)
    {
      ghost var pending := g.pending;
      if GetStr(records[i], "verdict") == Some("reject") {
        RejectionShows(pending, hash, records[i]);
      }
      var outcome;
      ghost var tip, after;
      outcome, tip, after := DecideWithRecord(set0, g, hash, records[i]);
      outcomes := outcomes + [outcome];
      if outcome == Ok(Admitted) {
        return;
      }
    }
  }

  /**
   * Holding a changeset files its evidence anew: a rejected proposal that its author submits again is
   * open again, and the decisions it had are gone.
   */
  method ResubmissionReopens(set0: Setting, g: Graph, author: string, cs: Value, hash: string, envelopes: seq<Value>) returns (r: Result<Outcome>)
    requires Ends(g.log, g.head)
    modifies g
    ensures r == Ok(Held) ==> g.pending == old(g.pending)[Short(hash) := Evidence([], envelopes)]
    ensures r == Ok(Held) ==> !IsRejected(g.pending, hash) && forall record :: Open(g.proposals, g.pending, hash, record) <==> FitsProposal(record, hash)
  {
    hide Ends, IsTip, Governed, Accepts, Stuck, FitsProposal;
    ghost var tip, after;
    r, tip, after := AdmitOrHold(set0, g, author, cs, hash, envelopes);
  }
}
