/**
 * Validation rules and the changeset of an import (crates/allod-core/src/fold.rs:277-285, 428-470,
 * crates/allod-graph/src/repo.rs:402-595): a schema without rules on the importer's types lets every
 * import through.
 */
module RepoRules {
  import opened Text
  import opened Values
  import opened Hashing
  import opened Objects
  import opened Registries
  import opened Fold
  import opened Rules
  import opened RepoImport
  import opened RepoLayout
  import opened RepoTarget
  import opened RepoApply

  /** The types of the nodes an import writes; what it deletes carries no type. */
  const CODE_TYPES: set<string> := {"code/Repository@1", "code/SourceFile@1", "code/Function@1", "code/Type@1", ""}

  lemma ContentTouches(j: Job, slot: Slot)
    requires Wanted(j, slot)
    ensures GetStr(Map(Content(j, slot)), "kind") == Some("node") ==> GetStr(Map(Content(j, slot)), "type").GetOr("") in CODE_TYPES
  {
    hide Refs, IdOf, FileAttributes, ItemAttributes, NodeRef;
    assert "edge"[0] != "node"[0];
  }

  lemma SlotOpIsCode(j: Job, slot: Slot, op: Value)
    requires op in SlotOps(j, slot)
    ensures OpIn(CODE_TYPES, op)
  {
    hide Content, Wanted, Stale, RevAt, IdOf, ParseOp, TouchedIn;
    match ChangeFor(j, slot).value {
      case Make(content) =>
        ContentTouches(j, slot);
        ParsesSingle("create", Map(content));
        WrittenIsCode(content, "create", Map(content));
      case Remake(content, prior) =>
        ContentTouches(j, slot);
        var payload := Map(content["prior" := Str(prior)]);
        assert Get(payload, "kind") == Get(Map(content), "kind") && Get(payload, "type") == Get(Map(content), "type");
        ParsesSingle("update", payload);
        WrittenIsCode(content, "update", payload);
      case Drop(prior) =>
        var k := KeyOfSlot(j, slot);
        var payload := Map(map["kind" := Str(k.0), "id" := Str(k.1), "prior" := Str(prior)]);
        assert GetStr(payload, "type") == None;
        ParsesSingle("delete", payload);
        DroppedIsCode("delete", payload);
    }
  }

  lemma WrittenIsCode(content: map<string, Value>, verb: string, payload: Value)
    requires GetStr(Map(content), "kind") == Some("node") ==> GetStr(Map(content), "type").GetOr("") in CODE_TYPES
    requires Get(payload, "kind") == Get(Map(content), "kind") && Get(payload, "type") == Get(Map(content), "type")
    ensures TouchedIn(CODE_TYPES, Touched(verb, payload))
  {
  }

  lemma DroppedIsCode(verb: string, payload: Value)
    requires GetStr(payload, "type") == None
    ensures TouchedIn(CODE_TYPES, Touched(verb, payload))
  {
  }

  lemma {:induction false} SlotsOpsAreCode(j: Job, slots: seq<Slot>)
    ensures forall op :: op in SlotsOps(j, slots) ==> OpIn(CODE_TYPES, op)
  {
    hide SlotOps, OpIn;
    if slots == [] {
    } else {
      SlotsOpsAreCode(j, slots[..|slots| - 1]);
      forall op | op in SlotOps(j, slots[|slots| - 1]) ensures OpIn(CODE_TYPES, op) {
        SlotOpIsCode(j, slots[|slots| - 1], op);
      }
    }
  }

  /** A schema without rules on code types has no objection to the operations of an import. */
  lemma ImportPasses(sha: Sha, reg: Registry, j: Job, slots: seq<Slot>)
    requires RulesPassOver(reg, CODE_TYPES)
    requires ApplyOps(sha, reg, Working(j.s, [], []), SlotsOps(j, slots)).Ok?
    ensures RulesHold(reg, ApplyOps(sha, reg, Working(j.s, [], []), SlotsOps(j, slots)).value)
  {
    hide RulesPassOver, RulesHold, SlotsOps, OpIn, ApplyOps;
    SlotsOpsAreCode(j, slots);
    OpsPass(CODE_TYPES, sha, reg, j.s, SlotsOps(j, slots));
  }
}
