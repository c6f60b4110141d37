/**
 * Which validation rules a changeset meets (crates/allod-core/src/fold.rs:277-285, 428-470): a rule
 * looks only at touched nodes of its own type.
 */
module Rules {
  import opened Text
  import opened Values
  import opened Hashing
  import opened Objects
  import opened Registries
  import opened Fold

  /** A touched node has one of the types. */
  predicate TouchedIn(types: set<string>, t: Touched) {
    GetStr(t.payload, "kind") == Some("node") ==> GetStr(t.payload, "type").GetOr("") in types
  }

  /** No rule of the registry is about something that one of the types is or extends. */
  ghost predicate RulesPassOver(reg: Registry, types: set<string>) {
    forall p, rule, on :: p in reg.packages && reg.packages[p].rules.Seq? && rule in reg.packages[p].rules.items && Get(rule, "on") == Some(on) ==>
      forall onType, t :: GetStr(on, "type") == Some(onType) && t in types ==> !TypeSatisfies(reg, t, onType, Some(p))
  }

  lemma {:induction false} TouchedPass(types: set<string>, sc: Scene, rule: Value, on: Value, onType: string, touched: seq<Touched>)
    requires forall t :: t in touched ==> TouchedIn(types, t)
    requires forall t :: t in types ==> !TypeSatisfies(sc.reg, t, onType, Some(sc.pkg))
    ensures CheckAllTouched(sc, rule, on, onType, touched).Ok?
  {
    hide TypeSatisfies, EvalCondition;
    if touched == [] {
    } else {
      assert touched[0] in touched;
      TouchedPass(types, sc, rule, on, onType, touched[1..]);
    }
  }

  /** Rules that pass the types over hold of every changeset that touches nodes of those types only. */
  lemma PassedRulesHold(types: set<string>, reg: Registry, w: Working)
    requires RulesPassOver(reg, types) && forall t :: t in w.touched ==> TouchedIn(types, t)
    ensures RulesHold(reg, w)
  {
    hide TouchedIn, TypeSatisfies, CheckAllTouched;
    forall p, rule | p in reg.packages && reg.packages[p].rules.Seq? && rule in reg.packages[p].rules.items
      ensures CheckRule(Scene(reg, w.objects, w.created, p), rule, w.touched).Ok?
    {
      if Get(rule, "on").Some? && GetStr(Get(rule, "on").value, "type").Some? {
        var on := Get(rule, "on").value;
        TouchedPass(types, Scene(reg, w.objects, w.created, p), rule, on, GetStr(on, "type").value, w.touched);
      }
    }
  }

  predicate OpIn(types: set<string>, op: Value) {
    ParseOp(op).Ok? ==> TouchedIn(types, ParseOp(op).value)
  }

  lemma {:induction false} OpsTouch(types: set<string>, sha: Sha, reg: Registry, w: Working, ops: seq<Value>)
    requires forall op :: op in ops ==> OpIn(types, op)
    requires forall t :: t in w.touched ==> TouchedIn(types, t)
    requires ApplyOps(sha, reg, w, ops).Ok?
    ensures forall t :: t in ApplyOps(sha, reg, w, ops).value.touched ==> TouchedIn(types, t)
    decreases |ops|
  {
    hide TouchedIn, ApplyVerb, ParseOp, KeyOf;
    if ops == [] {
    } else {
      assert ops[0] in ops;
      OpsTouch(types, sha, reg, ApplyOp(sha, reg, w, ops[0]).value, ops[1..]);
    }
  }

  /** A schema without rules on the types of the nodes the operations write has no objection to them. */
  lemma OpsPass(types: set<string>, sha: Sha, reg: Registry, s: Objects, ops: seq<Value>)
    requires RulesPassOver(reg, types) && forall op :: op in ops ==> OpIn(types, op)
    requires ApplyOps(sha, reg, Working(s, [], []), ops).Ok?
    ensures RulesHold(reg, ApplyOps(sha, reg, Working(s, [], []), ops).value)
  {
    hide RulesPassOver, RulesHold, OpIn, TouchedIn, ApplyOps;
    OpsTouch(types, sha, reg, Working(s, [], []), ops);
    PassedRulesHold(types, reg, ApplyOps(sha, reg, Working(s, [], []), ops).value);
  }
}
