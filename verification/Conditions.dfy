/**
 * What a validation rule means (crates/allod-core/src/fold.rs:428-568): conditions by the words they are
 * written with, edge conditions by the number of edges, rules by what they ask of the nodes a changeset
 * writes, and what all of that means for an accepted changeset.
 */
module Conditions {
  import opened Text
  import opened Values
  import opened Order
  import opened Hashing
  import opened Model
  import opened Objects
  import opened Registries
  import opened Fold
  import opened Operations

  // ---------------------------------------------------------------- connectives

  /** The first part with an outcome other than `b` comes out as `!b`. */
  ghost predicate Decides(sc: Scene, objRef: string, obj: Value, subs: seq<Value>, b: bool) {
    exists i :: Deciding(sc, objRef, obj, subs, b, i)
  }

  ghost predicate Deciding(sc: Scene, objRef: string, obj: Value, subs: seq<Value>, b: bool, i: int) {
    && 0 <= i < |subs| && EvalCondition(sc, objRef, obj, subs[i]) == Ok(!b)
    && forall j :: 0 <= j < i ==> EvalCondition(sc, objRef, obj, subs[j]) == Ok(b)
  }

  lemma DecidesLater(sc: Scene, objRef: string, obj: Value, subs: seq<Value>, b: bool)
    requires subs != [] && EvalCondition(sc, objRef, obj, subs[0]) == Ok(b)
    ensures Decides(sc, objRef, obj, subs, b) <==> Decides(sc, objRef, obj, subs[1..], b)
  {
    hide EvalCondition;
    var rest := subs[1..];
    if Decides(sc, objRef, obj, subs, b) {
      var i :| Deciding(sc, objRef, obj, subs, b, i);
      assert rest[i - 1] == subs[i] && forall j :: 0 <= j < i - 1 ==> rest[j] == subs[j + 1];
      assert Deciding(sc, objRef, obj, rest, b, i - 1);
    }
    if Decides(sc, objRef, obj, rest, b) {
      var i :| Deciding(sc, objRef, obj, rest, b, i);
      assert subs[i + 1] == rest[i] && forall j :: 0 < j < i + 1 ==> subs[j] == rest[j - 1];
      assert Deciding(sc, objRef, obj, subs, b, i + 1);
    }
  }

  lemma DecidesNow(sc: Scene, objRef: string, obj: Value, subs: seq<Value>, b: bool)
    requires subs != [] && EvalCondition(sc, objRef, obj, subs[0]) != Ok(b)
    ensures Decides(sc, objRef, obj, subs, b) <==> EvalCondition(sc, objRef, obj, subs[0]) == Ok(!b)
  {
    hide EvalCondition;
    if Decides(sc, objRef, obj, subs, b) {
      var i :| Deciding(sc, objRef, obj, subs, b, i);
      assert i == 0;
    }
    if EvalCondition(sc, objRef, obj, subs[0]) == Ok(!b) {
      assert Deciding(sc, objRef, obj, subs, b, 0);
    }
  }

  lemma EachOf(sc: Scene, objRef: string, obj: Value, subs: seq<Value>, b: bool)
    requires subs != []
    ensures (forall sub :: sub in subs ==> EvalCondition(sc, objRef, obj, sub) == Ok(b)) <==>
            EvalCondition(sc, objRef, obj, subs[0]) == Ok(b) && forall sub :: sub in subs[1..] ==> EvalCondition(sc, objRef, obj, sub) == Ok(b)
  {
    hide EvalCondition;
    assert subs == [subs[0]] + subs[1..];
  }

  lemma {:induction false} AllItems(sc: Scene, objRef: string, obj: Value, subs: seq<Value>)
    ensures EvalAll(sc, objRef, obj, subs) == Ok(true) <==> forall sub :: sub in subs ==> EvalCondition(sc, objRef, obj, sub) == Ok(true)
    ensures EvalAll(sc, objRef, obj, subs) == Ok(false) <==> Decides(sc, objRef, obj, subs, true)
    decreases |subs|
  {
    hide EvalCondition, Decides;
    if subs == [] {
      NothingDecides(sc, objRef, obj, true);
    } else {
      AllItems(sc, objRef, obj, subs[1..]);
      EachOf(sc, objRef, obj, subs, true);
      if EvalCondition(sc, objRef, obj, subs[0]) == Ok(true) {
        DecidesLater(sc, objRef, obj, subs, true);
      } else {
        DecidesNow(sc, objRef, obj, subs, true);
      }
    }
  }

  lemma {:induction false} AnyItems(sc: Scene, objRef: string, obj: Value, subs: seq<Value>)
    ensures EvalAny(sc, objRef, obj, subs) == Ok(false) <==> forall sub :: sub in subs ==> EvalCondition(sc, objRef, obj, sub) == Ok(false)
    ensures EvalAny(sc, objRef, obj, subs) == Ok(true) <==> Decides(sc, objRef, obj, subs, false)
    decreases |subs|
  {
    hide EvalCondition, Decides;
    if subs == [] {
      NothingDecides(sc, objRef, obj, false);
    } else {
      AnyItems(sc, objRef, obj, subs[1..]);
      EachOf(sc, objRef, obj, subs, false);
      if EvalCondition(sc, objRef, obj, subs[0]) == Ok(false) {
        DecidesLater(sc, objRef, obj, subs, false);
      } else {
        DecidesNow(sc, objRef, obj, subs, false);
      }
    }
  }

  lemma NothingDecides(sc: Scene, objRef: string, obj: Value, b: bool)
    ensures !Decides(sc, objRef, obj, [], b)
  {
    hide EvalCondition;
  }

  /** `all` holds exactly when each part does; it fails at the first part that does, if none before it is in error. */
  lemma AllHolds(sc: Scene, objRef: string, obj: Value, cond: Value, subs: seq<Value>)
    requires GetSeq(cond, "all") == Some(subs)
    ensures EvalCondition(sc, objRef, obj, cond) == Ok(true) <==> forall sub :: sub in subs ==> EvalCondition(sc, objRef, obj, sub) == Ok(true)
    ensures EvalCondition(sc, objRef, obj, cond) == Ok(false) <==> Decides(sc, objRef, obj, subs, true)
  {
    AllItems(sc, objRef, obj, subs);
    assert EvalCondition(sc, objRef, obj, cond) == EvalAll(sc, objRef, obj, subs);
    hide EvalCondition, EvalAll, Decides;
  }

  /** `any` fails exactly when each part does; it holds at the first part that does, if none before it is in error. */
  lemma AnyHolds(sc: Scene, objRef: string, obj: Value, cond: Value, subs: seq<Value>)
    requires GetSeq(cond, "all") == None && GetSeq(cond, "any") == Some(subs)
    ensures EvalCondition(sc, objRef, obj, cond) == Ok(false) <==> forall sub :: sub in subs ==> EvalCondition(sc, objRef, obj, sub) == Ok(false)
    ensures EvalCondition(sc, objRef, obj, cond) == Ok(true) <==> Decides(sc, objRef, obj, subs, false)
  {
    AnyItems(sc, objRef, obj, subs);
    assert EvalCondition(sc, objRef, obj, cond) == EvalAny(sc, objRef, obj, subs);
    hide EvalCondition, EvalAny, Decides;
  }

  /** `not` holds exactly when its part fails, and fails exactly when its part holds. */
  lemma NotHolds(sc: Scene, objRef: string, obj: Value, cond: Value, sub: Value)
    requires GetSeq(cond, "all") == None && GetSeq(cond, "any") == None && Get(cond, "not") == Some(sub)
    ensures EvalCondition(sc, objRef, obj, cond) == Ok(true) <==> EvalCondition(sc, objRef, obj, sub) == Ok(false)
    ensures EvalCondition(sc, objRef, obj, cond) == Ok(false) <==> EvalCondition(sc, objRef, obj, sub) == Ok(true)
  {
    var b := EvalCondition(sc, objRef, obj, sub);
    assert EvalCondition(sc, objRef, obj, cond) == match b case Ok(v) => Ok(!v) case Err(e) => Err(e);
    hide EvalCondition;
  }

  lemma FieldNames()
    ensures "all" != "attr" && "any" != "attr" && "not" != "attr" && "edge" != "attr" && "present" != "attr" && "equals" != "attr" && "in" != "attr"
    ensures "present" != "all" && "present" != "any" && "present" != "not" && "present" != "edge" && "present" != "equals" && "present" != "in"
    ensures "equals" != "all" && "equals" != "any" && "equals" != "not" && "equals" != "edge" && "equals" != "in"
    ensures "in" != "all" && "in" != "any" && "in" != "not" && "in" != "edge"
    ensures "edge" != "all" && "edge" != "any" && "edge" != "not"
  {
    assert |"all"| == 3 && |"any"| == 3 && |"not"| == 3 && |"attr"| == 4 && |"edge"| == 4 && |"present"| == 7 && |"equals"| == 6 && |"in"| == 2;
    assert "edge"[0] != "attr"[0];
  }

  /** The attribute conditions: there, not there, equal to a value, one of some values. */
  lemma AttributeHolds(sc: Scene, objRef: string, obj: Value, a: string, present: bool, v: Value, options: seq<Value>)
    ensures var value := Get(AttributesOf(obj), a);
            && EvalCondition(sc, objRef, obj, Map(map["attr" := Str(a), "present" := Bool(present)])) == Ok(value.Some? <==> present)
            && EvalCondition(sc, objRef, obj, Map(map["attr" := Str(a), "equals" := v])) == Ok(value == Some(v))
            && EvalCondition(sc, objRef, obj, Map(map["attr" := Str(a), "in" := Seq(options)])) == Ok(exists x :: x in options && value == Some(x))
            && EvalCondition(sc, objRef, obj, Map(map["attr" := Str(a)])) == Ok(value.Some?)
  {
    FieldNames();
    hide AttributesOf;
  }

  // ---------------------------------------------------------------- edges

  /** The edge's type is the one asked for: in full, by its name in the rule's package, or by its name in any package. */
  ghost predicate OfType(candidate: string, etype: string, pkg: string) {
    || Bare(candidate) == Bare(etype)
    || Bare(candidate) == pkg + "/" + Bare(etype)
    || ('/' !in Bare(etype) && exists p :: Bare(candidate) == p + "/" + Bare(etype))
  }

  lemma OfTypeIs(candidate: string, etype: string, pkg: string)
    ensures EdgeTypeMatches(candidate, etype, pkg) <==> OfType(candidate, etype, pkg)
  {
    var c, e := Bare(candidate), Bare(etype);
    hide Bare;
    if RSplitOnce(c, '/').Some? {
      var (p, n) := RSplitOnce(c, '/').value;
      assert c == p + "/" + n && '/' !in n;
    }
    if '/' !in e {
      forall p | c == p + "/" + e ensures RSplitOnce(c, '/') == Some((p, e)) {
        QualifiedSplits(p, e);
      }
    }
  }

  /** The edge counts: of the right type, at the object, and leading to a live object of which the target condition holds. */
  ghost predicate Counted(sc: Scene, objRef: string, edge: Value, c: Value) {
    var near, far := if GetStr(edge, "direction") == Some("out") then "from" else "to", if GetStr(edge, "direction") == Some("out") then "to" else "from";
    && OfType(GetStr(c, "type").GetOr(""), GetStr(edge, "type").GetOr(""), sc.pkg)
    && GetStr(c, near) == Some(objRef)
    && (Get(edge, "target_where").Some? ==>
          && ResolveRef(sc.objects, GetStr(c, far).GetOr("")).Some?
          && EvalCondition(sc, GetStr(c, far).GetOr(""), ResolveRef(sc.objects, GetStr(c, far).GetOr("")).value.1.content,
                          Get(edge, "target_where").value) == Ok(true))
  }

  /** The places of a list whose edges count. */
  ghost function CountedAt(sc: Scene, objRef: string, edge: Value, candidates: seq<Value>): set<nat> {
    set i: nat | i < |candidates| && Counted(sc, objRef, edge, candidates[i])
  }

  /** A set and the same places moved up by one. */
  lemma ShiftSize(moved: set<nat>, b: set<nat>)
    requires forall i: nat :: i in b ==> i + 1 in moved
    requires forall j: nat :: j in moved ==> j > 0 && j - 1 in b
    ensures |moved| == |b|
    decreases |b|
  {
    if b == {} {
      assert moved == {};
    } else {
      var x :| x in b;
      ShiftSize(moved - {x + 1}, b - {x});
      assert |moved - {x + 1}| == |moved| - 1;
    }
  }

  lemma CountedCons(sc: Scene, objRef: string, edge: Value, candidates: seq<Value>)
    requires candidates != []
    ensures |CountedAt(sc, objRef, edge, candidates)|
         == (if Counted(sc, objRef, edge, candidates[0]) then 1 else 0) + |CountedAt(sc, objRef, edge, candidates[1..])|
  {
    hide Counted;
    var a, b := CountedAt(sc, objRef, edge, candidates), CountedAt(sc, objRef, edge, candidates[1..]);
    var moved := a - {0};
    forall i: nat | i in b ensures i + 1 in moved {
      assert candidates[1..][i] == candidates[i + 1];
    }
    forall j: nat | j in moved ensures j > 0 && j - 1 in b {
      assert candidates[1..][j - 1] == candidates[j];
    }
    ShiftSize(moved, b);
    if Counted(sc, objRef, edge, candidates[0]) {
      assert 0 in a && a == moved + {0};
    } else {
      assert moved == a;
    }
  }

  lemma {:induction false} CountIs(sc: Scene, objRef: string, edge: Value, etype: string, near: string, far: string, candidates: seq<Value>)
    requires GetStr(edge, "type") == Some(etype)
    requires near == (if GetStr(edge, "direction") == Some("out") then "from" else "to")
    requires far == if GetStr(edge, "direction") == Some("out") then "to" else "from"
    requires CountEdges(sc, objRef, edge, etype, near, far, candidates).Ok?
    ensures CountEdges(sc, objRef, edge, etype, near, far, candidates).value == |CountedAt(sc, objRef, edge, candidates)|
    decreases |candidates|
  {
    hide EvalCondition, EdgeTypeMatches, OfType, ResolveRef, GetStr;
    if candidates == [] {
      assert CountedAt(sc, objRef, edge, candidates) == {};
    } else {
      var c := candidates[0];
      OfTypeIs(GetStr(c, "type").GetOr(""), etype, sc.pkg);
      CountIs(sc, objRef, edge, etype, near, far, candidates[1..]);
      CountedCons(sc, objRef, edge, candidates);
      hide CountedAt;
      assert Get(edge, "target_where").Some? ==> edge.m["target_where"] == Get(edge, "target_where").value;
    }
  }

  lemma {:induction false} PlainCountWorks(sc: Scene, objRef: string, edge: Value, etype: string, near: string, far: string, candidates: seq<Value>)
    requires Get(edge, "target_where").None?
    ensures CountEdges(sc, objRef, edge, etype, near, far, candidates).Ok?
    decreases |candidates|
  {
    hide EvalCondition, EdgeTypeMatches, ResolveRef, GetStr;
    if candidates == [] {
    } else {
      PlainCountWorks(sc, objRef, edge, etype, near, far, candidates[1..]);
    }
  }

  /** How many edges are needed: one, unless `min` says otherwise. */
  function Needed(edge: Value): nat {
    match Get(edge, "min") case Some(Num(n)) => if n >= 0 then n else 1 case _ => 1
  }

  /** The condition reads the edges of the state, or those the changeset creates. */
  ghost function Candidates(sc: Scene, edge: Value): seq<Value> {
    if GetStr(edge, "within") == Some("changeset") then sc.created else LiveEdges(sc.objects, InOrder(sc.objects.Keys))
  }

  /** An edge condition holds exactly when enough edges count. Without a condition on the far end it is never in error. */
  lemma EdgeHolds(sc: Scene, objRef: string, obj: Value, cond: Value, edge: Value)
    requires GetSeq(cond, "all") == None && GetSeq(cond, "any") == None && Get(cond, "not") == None && Get(cond, "edge") == Some(edge)
    requires GetStr(edge, "type").Some? && GetStr(edge, "direction").Some?
    ensures EvalCondition(sc, objRef, obj, cond).Ok? ==>
              (EvalCondition(sc, objRef, obj, cond).value <==> |CountedAt(sc, objRef, edge, Candidates(sc, edge))| >= Needed(edge))
    ensures Get(edge, "target_where").None? ==> EvalCondition(sc, objRef, obj, cond).Ok?
  {
    var etype := GetStr(edge, "type").value;
    var near, far := if GetStr(edge, "direction") == Some("out") then "from" else "to", if GetStr(edge, "direction") == Some("out") then "to" else "from";
    assert EvalCondition(sc, objRef, obj, cond) == EvalEdge(sc, objRef, edge);
    hide EvalCondition, CountedAt, LiveEdges, InOrder, GetSeq;
    var count := CountEdges(sc, objRef, edge, etype, near, far, Candidates(sc, edge));
    assert EvalEdge(sc, objRef, edge) == match count case Ok(n) => Ok(n >= Needed(edge)) case Err(e) => Err(e);
    hide EvalEdge, CountEdges;
    if Get(edge, "target_where").None? {
      PlainCountWorks(sc, objRef, edge, etype, near, far, Candidates(sc, edge));
    }
    if count.Ok? {
      CountIs(sc, objRef, edge, etype, near, far, Candidates(sc, edge));
    }
  }

  /** The live edges of a state that count. */
  ghost function CountedKeys(sc: Scene, objRef: string, edge: Value, keys: seq<Key>): set<Key> {
    set k | k in keys && LiveOfKind(sc.objects, k, "edge") && Counted(sc, objRef, edge, sc.objects[k].content)
  }

  lemma KeysCons(sc: Scene, objRef: string, edge: Value, keys: seq<Key>)
    requires keys != [] && keys[0] !in keys[1..]
    ensures |CountedKeys(sc, objRef, edge, keys)|
         == (if LiveOfKind(sc.objects, keys[0], "edge") && Counted(sc, objRef, edge, sc.objects[keys[0]].content) then 1 else 0)
            + |CountedKeys(sc, objRef, edge, keys[1..])|
  {
    var k, here := keys[0], LiveOfKind(sc.objects, keys[0], "edge") && Counted(sc, objRef, edge, sc.objects[keys[0]].content);
    var a, b := CountedKeys(sc, objRef, edge, keys), CountedKeys(sc, objRef, edge, keys[1..]);
    assert k in a <==> here;
    assert forall j :: j != k ==> (j in a <==> j in b) by {
      hide Counted, LiveOfKind;
      assert keys == [k] + keys[1..];
    }
    hide CountedKeys, Counted, LiveOfKind;
    assert k !in b;
    if here {
      assert a == b + {k};
    } else {
      assert a == b;
    }
  }

  lemma LiveEdgesCons(s: Objects, keys: seq<Key>)
    requires keys != []
    ensures var all, rest := LiveEdges(s, keys), LiveEdges(s, keys[1..]);
            if LiveOfKind(s, keys[0], "edge") then all != [] && all[0] == s[keys[0]].content && all[1..] == rest else all == rest
  {
  }

  lemma {:induction false} LiveCount(sc: Scene, objRef: string, edge: Value, keys: seq<Key>)
    requires Distinct(keys)
    ensures |CountedAt(sc, objRef, edge, LiveEdges(sc.objects, keys))| == |CountedKeys(sc, objRef, edge, keys)|
  {
    hide Counted, LiveOfKind, CountedAt, CountedKeys, LiveEdges;
    if keys == [] {
      NothingCounted(sc, objRef, edge);
    } else {
      var rest := keys[1..];
      assert keys == [keys[0]] + rest && keys[0] !in rest;
      LiveCount(sc, objRef, edge, rest);
      KeysCons(sc, objRef, edge, keys);
      LiveEdgesCons(sc.objects, keys);
      if LiveOfKind(sc.objects, keys[0], "edge") {
        CountedCons(sc, objRef, edge, LiveEdges(sc.objects, keys));
      }
    }
  }

  lemma NothingCounted(sc: Scene, objRef: string, edge: Value)
    ensures CountedAt(sc, objRef, edge, LiveEdges(sc.objects, [])) == {} && CountedKeys(sc, objRef, edge, []) == {}
  {
    hide Counted;
  }

  /** Unless it is confined to the changeset, an edge condition counts the live edges of the state, each once. */
  lemma StateEdgesCount(sc: Scene, objRef: string, edge: Value)
    requires GetStr(edge, "within") != Some("changeset")
    ensures |CountedAt(sc, objRef, edge, Candidates(sc, edge))|
         == |set k | k in sc.objects && LiveOfKind(sc.objects, k, "edge") && Counted(sc, objRef, edge, sc.objects[k].content)|
  {
    hide Counted, LiveEdges, CountedAt;
    var keys := InOrder(sc.objects.Keys);
    BeforeIsOrder();
    hide Before;
    AscendingDistinct(Before, keys);
    LiveCount(sc, objRef, edge, keys);
    assert CountedKeys(sc, objRef, edge, keys)
        == set k | k in sc.objects && LiveOfKind(sc.objects, k, "edge") && Counted(sc, objRef, edge, sc.objects[k].content);
  }

  // ---------------------------------------------------------------- rules

  /** The rule is about the operation: it writes a node of the rule's type by one of the rule's verbs, and the node is live afterwards. */
  ghost predicate Concerns(sc: Scene, on: Value, onType: string, t: Touched) {
    var id := GetStr(t.payload, "id").GetOr("");
    && GetStr(t.payload, "kind") == Some("node")
    && (match Get(on, "operation")
        case None => t.verb == "create" || t.verb == "update"
        case Some(v) => v == Str(t.verb) || (v.Seq? && Str(t.verb) in v.items))
    && TypeSatisfies(sc.reg, GetStr(t.payload, "type").GetOr(""), onType, Some(sc.pkg))
    && ("node", id) in sc.objects && !sc.objects[("node", id)].deleted
  }

  /** Of the node as it is afterwards: where the rule applies, what it requires holds. */
  ghost predicate Meets(sc: Scene, rule: Value, on: Value, id: string) {
    ("node", id) in sc.objects &&
    var content := sc.objects[("node", id)].content;
    && (Get(on, "where").Some? ==> EvalCondition(sc, "node:" + id, content, Get(on, "where").value).Ok?)
    && (Get(on, "where").None? || EvalCondition(sc, "node:" + id, content, Get(on, "where").value) == Ok(true) ==>
          Get(rule, "require").Some? && EvalCondition(sc, "node:" + id, content, Get(rule, "require").value) == Ok(true))
  }

  lemma NodeResolves(s: Objects, id: string)
    ensures ResolveRef(s, "node:" + id) == match GetLive(s, "node", id) case None => None case Some(o) => Some(("node", o))
  {
    assert ':' !in "node" && "node:" + id == "node" + [':'] + id;
    SplitOnceJoins("node:" + id, "node", id, ':');
  }

  lemma VerbsOf(on: Value, verb: string)
    ensures verb in RuleVerbs(on) <==>
            match Get(on, "operation")
            case None => verb == "create" || verb == "update"
            case Some(v) => v == Str(verb) || (v.Seq? && Str(verb) in v.items)
  {
  }

  lemma TouchedMeets(sc: Scene, rule: Value, on: Value, onType: string, t: Touched)
    ensures CheckTouched(sc, rule, on, onType, t).Ok? <==> (Concerns(sc, on, onType, t) ==> Meets(sc, rule, on, GetStr(t.payload, "id").GetOr("")))
  {
    hide EvalCondition, TypeSatisfies, RuleVerbs, ResolveRef, GetStr;
    VerbsOf(on, t.verb);
    NodeResolves(sc.objects, GetStr(t.payload, "id").GetOr(""));
  }

  lemma {:induction false} AllTouchedMeet(sc: Scene, rule: Value, on: Value, onType: string, touched: seq<Touched>)
    ensures CheckAllTouched(sc, rule, on, onType, touched).Ok? <==> forall t :: t in touched ==> CheckTouched(sc, rule, on, onType, t).Ok?
  {
    hide CheckTouched;
    if touched == [] {
    } else {
      assert touched == [touched[0]] + touched[1..];
      AllTouchedMeet(sc, rule, on, onType, touched[1..]);
    }
  }

  /** A rule without a type is about nothing; any other holds exactly when every node it concerns meets it. */
  lemma RuleHolds(sc: Scene, rule: Value, touched: seq<Touched>)
    ensures Get(rule, "on").None? || GetStr(Get(rule, "on").value, "type").None? ==> CheckRule(sc, rule, touched).Ok?
    ensures Get(rule, "on").Some? && GetStr(Get(rule, "on").value, "type").Some? ==>
              var on := Get(rule, "on").value;
              var onType := GetStr(on, "type").value;
              CheckRule(sc, rule, touched).Ok? <==>
                forall t :: t in touched && Concerns(sc, on, onType, t) ==> Meets(sc, rule, on, GetStr(t.payload, "id").GetOr(""))
  {
    hide CheckTouched, CheckAllTouched, Concerns, Meets, GetStr;
    if Get(rule, "on").Some? && GetStr(Get(rule, "on").value, "type").Some? {
      var on := Get(rule, "on").value;
      var onType := GetStr(on, "type").value;
      AllTouchedMeet(sc, rule, on, onType, touched);
      forall t ensures CheckTouched(sc, rule, on, onType, t).Ok? <==> (Concerns(sc, on, onType, t) ==> Meets(sc, rule, on, GetStr(t.payload, "id").GetOr(""))) {
        TouchedMeets(sc, rule, on, onType, t);
      }
    }
  }

  // ---------------------------------------------------------------- what the rules decide

  /** The rule is met by every node it concerns among those the operations write. */
  ghost predicate RuleMet(sc: Scene, ops: seq<Value>, rule: Value) {
    forall on, onType, verb, payload ::
      Get(rule, "on") == Some(on) && GetStr(on, "type") == Some(onType)
      && Map(map[verb := payload]) in ops && Concerns(sc, on, onType, Touched(verb, payload)) ==>
        Meets(sc, rule, on, GetStr(payload, "id").GetOr(""))
  }

  /** So is every rule of every package, in the state the operations leave. */
  ghost predicate RulesMet(reg: Registry, t: Objects, ops: seq<Value>) {
    forall p, rule :: p in reg.packages && reg.packages[p].rules.Seq? && rule in reg.packages[p].rules.items ==>
      RuleMet(Scene(reg, t, NewEdges(ops), p), ops, rule)
  }

  lemma RuleMetIs(sc: Scene, ops: seq<Value>, touched: seq<Touched>, rule: Value)
    requires |touched| == |ops| && forall i :: 0 <= i < |ops| ==> ops[i] == Map(map[touched[i].verb := touched[i].payload])
    ensures CheckRule(sc, rule, touched).Ok? <==> RuleMet(sc, ops, rule)
  {
    hide CheckRule, Concerns, Meets, GetStr;
    RuleHolds(sc, rule, touched);
    forall verb, payload ensures Map(map[verb := payload]) in ops <==> Touched(verb, payload) in touched {
      TouchedListed(touched, ops, verb, payload);
    }
    assert forall t: Touched :: t == Touched(t.verb, t.payload);
  }

  lemma TouchedListed(touched: seq<Touched>, ops: seq<Value>, verb: string, payload: Value)
    requires |touched| == |ops| && forall i :: 0 <= i < |ops| ==> ops[i] == Map(map[touched[i].verb := touched[i].payload])
    ensures Map(map[verb := payload]) in ops <==> Touched(verb, payload) in touched
  {
    if Map(map[verb := payload]) in ops {
      var i :| 0 <= i < |ops| && ops[i] == Map(map[verb := payload]);
      var t := touched[i];
      assert map[t.verb := t.payload] == map[verb := payload];
      assert t.verb in map[verb := payload] && map[t.verb := t.payload][verb] == payload;
      assert touched[i] == Touched(verb, payload);
    }
    if Touched(verb, payload) in touched {
      var i :| 0 <= i < |touched| && touched[i] == Touched(verb, payload);
      assert ops[i] == Map(map[verb := payload]);
    }
  }

  /**
   * Of a changeset whose header is good, whose operations are accepted and which leaves no edge
   * dangling, the rules decide: it is accepted exactly when each node it creates or updates meets every
   * rule that concerns it.
   */
  lemma RulesDecide(sha: Sha, reg: Registry, s: Objects, cs: Value, w: Working)
    requires GoodHeader(sha, cs) && ApplyOps(sha, reg, Working(s, [], []), OpsOf(cs)) == Ok(w) && EndsLive(w.objects)
    ensures Apply(sha, reg, s, cs).Ok? <==> RulesMet(reg, w.objects, OpsOf(cs))
  {
    hide GoodHeader, ApplyOps, EndsLive, Apply, CheckRule, RuleMet, NewEdges, OpsOf;
    AppliesExactly(sha, reg, s, cs, w.objects);
    if Apply(sha, reg, s, cs).Ok? {
      AppliesExactly(sha, reg, s, cs, Apply(sha, reg, s, cs).value);
    }
    var ops := OpsOf(cs);
    Remembered(sha, reg, Working(s, [], []), ops);
    assert [] + NewEdges(ops) == NewEdges(ops);
    forall p, rule
      ensures CheckRule(Scene(reg, w.objects, w.created, p), rule, w.touched).Ok? <==> RuleMet(Scene(reg, w.objects, w.created, p), ops, rule)
    {
      RuleMetIs(Scene(reg, w.objects, w.created, p), ops, w.touched, rule);
    }
  }
}
