/**
 * What a policy rule asks for (crates/allod-core/src/policy.rs:66-326): when a selector selects an
 * operation, word by word; what the operation carries for selectors to look at; and what the
 * requirements of a rule that selects it are. Selecting is read off checklists.
 */
module Selectors {
  import opened Text
  import opened Values
  import opened Graphs
  import opened Objects
  import opened Registries
  import opened Meta
  import opened Fold
  import opened Policy

  /** A rule with this selector that asks for nothing. */
  ghost function Alone(sel: Value): Value {
    Map(map["name" := Str("rule"), "select" := sel, "require" := Map(map[])])
  }

  /** The checklist of that rule and this operation names the rule. */
  ghost predicate Selects(reg: Registry, authorKind: string, ctx: OpContext, sel: Value) {
    exists list :: IsUnion(reg, [Alone(sel)], authorKind, [ctx], false, list) && "rule" in list.matchedRules
  }

  lemma AloneReads(sel: Value)
    ensures IsRule(Alone(sel)) && GetStr(Alone(sel), "name") == Some("rule") && Get(Alone(sel), "select") == Some(sel)
    ensures Get(Alone(sel), "require") == Some(Map(map[]))
    ensures (forall r :: !AsksReviewers(Map(map[]), r)) && AskedClass(Map(map[])) == None
  {
    assert "name" != "select" && "name" != "require" && |"select"| == 6 && |"require"| == 7;
  }

  lemma SelectsIs(reg: Registry, authorKind: string, ctx: OpContext, sel: Value)
    ensures Selects(reg, authorKind, ctx, sel) <==> SelectorMatches(reg, sel, authorKind, ctx)
  {
    AloneReads(sel);
    var rules, ctxs := [Alone(sel)], [ctx];
    assert rules[0] == Alone(sel) && ctxs[0] == ctx;
    hide SelectorMatches, Alone, IsRule, AsksReviewers, AskedClass, Get, GetStr;
    assert RuleMatches(reg, Alone(sel), authorKind, ctx) <==> SelectorMatches(reg, sel, authorKind, ctx);
    hide RuleMatches;
    assert forall rule :: Matched(reg, rules, authorKind, ctxs, rule) <==> rule == Alone(sel) && RuleMatches(reg, rule, authorKind, ctx);
    if SelectorMatches(reg, sel, authorKind, ctx) {
      var list := Checklist({"rule"}, [], [], false);
      assert Matched(reg, rules, authorKind, ctxs, Alone(sel));
      hide Matched;
      assert IsUnion(reg, rules, authorKind, ctxs, false, list);
    }
  }

  // ---------------------------------------------------------------- connectives

  /** `all` selects what each of its parts selects: everything, when it has none. */
  lemma AllSelects(reg: Registry, authorKind: string, ctx: OpContext, sel: Value, subs: seq<Value>)
    requires GetSeq(sel, "all") == Some(subs)
    ensures Selects(reg, authorKind, ctx, sel) <==> forall sub :: sub in subs ==> Selects(reg, authorKind, ctx, sub)
  {
    forall s ensures Selects(reg, authorKind, ctx, s) <==> SelectorMatches(reg, s, authorKind, ctx) {
      SelectsIs(reg, authorKind, ctx, s);
    }
    hide Selects;
  }

  /** `any` selects what some part selects: nothing, when it has none. */
  lemma AnySelects(reg: Registry, authorKind: string, ctx: OpContext, sel: Value, subs: seq<Value>)
    requires GetSeq(sel, "all") == None && GetSeq(sel, "any") == Some(subs)
    ensures Selects(reg, authorKind, ctx, sel) <==> exists sub :: sub in subs && Selects(reg, authorKind, ctx, sub)
  {
    forall s ensures Selects(reg, authorKind, ctx, s) <==> SelectorMatches(reg, s, authorKind, ctx) {
      SelectsIs(reg, authorKind, ctx, s);
    }
    hide Selects;
  }

  /** `not` selects what its part does not. */
  lemma NotSelects(reg: Registry, authorKind: string, ctx: OpContext, sel: Value, sub: Value)
    requires GetSeq(sel, "all") == None && GetSeq(sel, "any") == None && Get(sel, "not") == Some(sub)
    ensures Selects(reg, authorKind, ctx, sel) <==> !Selects(reg, authorKind, ctx, sub)
  {
    SelectsIs(reg, authorKind, ctx, sel);
    SelectsIs(reg, authorKind, ctx, sub);
    hide Selects;
  }

  // ---------------------------------------------------------------- the words of a bare selector

  /** What one word of a bare selector asks of an operation. A word of another form, or none of these, asks nothing. */
  ghost predicate Holds(reg: Registry, authorKind: string, ctx: OpContext, word: string, v: Value) {
    && (word == "author_kind" && v.Str? ==> v.s == authorKind)
    && (word == "basis" && v.Str? ==> ctx.basis == Some(v.s))
    && (word == "region" && v.Str? ==> Bare(v.s) in ctx.regions)
    && (word == "type" && v.Str? ==> ctx.kind in {"node", "edge"} && TypeSatisfies(reg, ctx.typeRef, v.s, None))
    && (word == "operation" ==> Called(ctx, v))
    && (word == "imported" && (v == Bool(true) || v.Str?) ==> ctx.imported)
    && (word == "where" && GetStr(v, "attr").Some? ==> AttributeFits(Get(AttributesOf(ctx.payload), GetStr(v, "attr").value), v))
    && (word == "substrate" ==> !v.Str?)
  }

  /** The operation goes by one of the names: its verb or a label of its meta type. */
  ghost predicate Called(ctx: OpContext, v: Value) {
    exists name :: (name == ctx.verb || name in ctx.sugar) && (v == Str(name) || (v.Seq? && Str(name) in v.items))
  }

  /** The attribute has the value asked for, or one of those listed, or any when none is. */
  ghost predicate AttributeFits(value: Option<Value>, cond: Value) {
    && value.Some?
    && (Get(cond, "equals").Some? ==> value.value == Get(cond, "equals").value)
    && (Get(cond, "equals").None? && GetSeq(cond, "in").Some? ==> value.value in GetSeq(cond, "in").value)
  }

  /** No word of the selector is read as a connective. */
  ghost predicate Plain(sel: Value) {
    GetSeq(sel, "all") == None && GetSeq(sel, "any") == None && Get(sel, "not") == None
  }

  lemma OperationIs(v: Value, ctx: OpContext)
    ensures OperationMatches(v, ctx) <==> Called(ctx, v)
  {
    forall name ensures name in OneOrMany(v) <==> v == Str(name) || (v.Seq? && Str(name) in v.items) {
    }
    hide OneOrMany;
  }

  lemma WhereIs(cond: Value, payload: Value)
    ensures WhereMatches(cond, payload) <==>
            (GetStr(cond, "attr").Some? ==> AttributeFits(Get(AttributesOf(payload), GetStr(cond, "attr").value), cond))
  {
    hide Get, GetStr, GetSeq, AttributesOf;
  }

  lemma WordHolds(reg: Registry, authorKind: string, ctx: OpContext, sel: Value, word: string)
    requires KeysMatch(reg, sel, authorKind, ctx) && sel.Map? && word in sel.m
    ensures Holds(reg, authorKind, ctx, word, sel.m[word])
  {
    var v := sel.m[word];
    OperationIs(v, ctx);
    WhereIs(v, ctx.payload);
    hide OperationMatches, Called, WhereMatches, TypeSatisfies, Bare, AttributesOf, AttributeFits;
  }

  lemma WordsMean(reg: Registry, authorKind: string, ctx: OpContext, v: Value)
    ensures Holds(reg, authorKind, ctx, "author_kind", v) && v.Str? ==> v.s == authorKind
    ensures Holds(reg, authorKind, ctx, "basis", v) && v.Str? ==> ctx.basis == Some(v.s)
    ensures Holds(reg, authorKind, ctx, "region", v) && v.Str? ==> Bare(v.s) in ctx.regions
    ensures Holds(reg, authorKind, ctx, "type", v) && v.Str? ==> (ctx.kind == "node" || ctx.kind == "edge") && TypeSatisfies(reg, ctx.typeRef, v.s, None)
    ensures Holds(reg, authorKind, ctx, "operation", v) ==> OperationMatches(v, ctx)
    ensures Holds(reg, authorKind, ctx, "imported", v) && (v == Bool(true) || v.Str?) ==> ctx.imported
    ensures Holds(reg, authorKind, ctx, "where", v) ==> WhereMatches(v, ctx.payload)
    ensures Holds(reg, authorKind, ctx, "substrate", v) ==> !v.Str?
  {
    OperationIs(v, ctx);
    WhereIs(v, ctx.payload);
    hide OperationMatches, Called, WhereMatches, TypeSatisfies, Bare, AttributesOf, AttributeFits;
  }

  lemma KeysHold(reg: Registry, authorKind: string, ctx: OpContext, sel: Value)
    requires sel.Map? ==> forall word :: word in sel.m ==> Holds(reg, authorKind, ctx, word, sel.m[word])
    ensures KeysMatch(reg, sel, authorKind, ctx)
  {
    hide Holds, OperationMatches, WhereMatches, TypeSatisfies, Bare;
    if sel.Map? {
      forall v {
        WordsMean(reg, authorKind, ctx, v);
      }
    }
  }

  lemma KeysAre(reg: Registry, authorKind: string, ctx: OpContext, sel: Value)
    ensures KeysMatch(reg, sel, authorKind, ctx) <==> !sel.Map? || forall word :: word in sel.m ==> Holds(reg, authorKind, ctx, word, sel.m[word])
  {
    hide KeysMatch, Holds;
    if KeysMatch(reg, sel, authorKind, ctx) && sel.Map? {
      forall word | word in sel.m ensures Holds(reg, authorKind, ctx, word, sel.m[word]) {
        WordHolds(reg, authorKind, ctx, sel, word);
      }
    }
    if !sel.Map? || forall word :: word in sel.m ==> Holds(reg, authorKind, ctx, word, sel.m[word]) {
      KeysHold(reg, authorKind, ctx, sel);
    }
  }

  /** A selector without connectives selects what each of its words asks for; one that is no mapping, everything. */
  lemma WordsSelect(reg: Registry, authorKind: string, ctx: OpContext, sel: Value)
    requires Plain(sel)
    ensures Selects(reg, authorKind, ctx, sel) <==> !sel.Map? || forall word :: word in sel.m ==> Holds(reg, authorKind, ctx, word, sel.m[word])
  {
    SelectsIs(reg, authorKind, ctx, sel);
    KeysAre(reg, authorKind, ctx, sel);
    assert SelectorMatches(reg, sel, authorKind, ctx) == KeysMatch(reg, sel, authorKind, ctx);
    hide Selects, Holds, KeysMatch, SelectorMatches;
  }

  // ---------------------------------------------------------------- what an operation carries

  /** The changeset's i-th operation and what is known of it agree; regions are looked at apart. */
  ghost predicate Carries(parent: Objects, op: Value, ctx: OpContext) {
    && op == Map(map[ctx.verb := ctx.payload])
    && ctx.kind == GetStr(ctx.payload, "kind").GetOr("")
    && ctx.basis == (if GetStr(ctx.payload, "basis").Some? then GetStr(ctx.payload, "basis") else ProvenanceStr(ctx.payload, "method"))
    && (ctx.imported <==> Get(ctx.payload, "provenance").Some? && exists r :: Derives(Get(ctx.payload, "provenance").value, r) && "allod:" <= r)
    && ctx.typeRef == TypeCarried(parent, ctx)
    && (forall name :: name in ctx.sugar <==> Labelled(ctx, name))
  }

  ghost function ProvenanceStr(payload: Value, field: string): Option<string> {
    match Get(payload, "provenance") case Some(p) => GetStr(p, field) case None => None
  }

  ghost predicate Derives(provenance: Value, r: string) {
    GetSeq(provenance, "derived_from").Some? && Str(r) in GetSeq(provenance, "derived_from").value
  }

  /** The type is the one stated; the delete of a node states none, and has the type of the live node it deletes. */
  ghost function TypeCarried(parent: Objects, ctx: OpContext): string {
    var stated := GetStr(ctx.payload, "type").GetOr("");
    var k := ("node", GetStr(ctx.payload, "id").GetOr(""));
    if stated == "" && ctx.verb == "delete" && ctx.kind == "node" && k in parent && !parent[k].deleted then GetStr(parent[k].content, "type").GetOr("")
    else stated
  }

  /** The labels of operations on nodes of the meta types. */
  ghost predicate Labelled(ctx: OpContext, name: string) {
    && ctx.kind == "node"
    && var t := Bare(ctx.typeRef);
       || (name == "define-type" && t in {"meta/EntityType", "meta/EdgeType", "meta/Struct"})
       || (name == "set-policy" && t == "meta/Policy")
       || (name == "deprecate-term" && t == "meta/TaxonomyTerm" && GetStr(AttributesOf(ctx.payload), "status") == Some("deprecated"))
  }

  /** A term places an operation: its own when it classifies, otherwise one its object has or is given in the same changeset. */
  ghost predicate Places(parent: Objects, ops: seq<Value>, ctx: OpContext, term: string) {
    if ctx.kind == "classification" then GetStr(ctx.payload, "term") == Some(term)
    else
      var subject := ctx.kind + ":" + GetStr(ctx.payload, "id").GetOr("");
      || (exists k :: k in parent && k.0 == "classification" && !parent[k].deleted && Relates(parent[k].content, subject, term))
      || (exists op :: op in ops && Classifying(op, subject, term))
  }

  ghost predicate Relates(classification: Value, subject: string, term: string) {
    GetStr(classification, "subject") == Some(subject) && GetStr(classification, "term") == Some(term)
  }

  /** The operation creates a classification of the subject under the term. */
  ghost predicate Classifying(op: Value, subject: string, term: string) {
    exists payload :: op == Map(map["create" := payload]) && GetStr(payload, "kind") == Some("classification") && Relates(payload, subject, term)
  }

  /** The operation lies in a region: some term that places it is the region, or lies below it. */
  ghost predicate LiesIn(reg: Registry, parent: Objects, ops: seq<Value>, ctx: OpContext, region: string) {
    exists term :: Places(parent, ops, ctx, term) && Reaches(Broader(reg), Bare(term), region)
  }

  lemma SugarIs(parent: Objects, t: Touched)
    ensures var ctx := Placeless(parent, t); forall name :: name in ctx.sugar <==> Labelled(ctx, name)
  {
    var ctx := Placeless(parent, t);
    EmptyIsBare();
    MetaTypesAre();
    hide Bare, TypeRefOf, BasisOf, IsImported, AttributesOf, META_TYPES;
  }

  lemma EmptyIsBare()
    ensures Bare("") == ""
  {
  }

  lemma MetaTypesAre()
    ensures {"meta/EntityType", "meta/EdgeType", "meta/Struct", "meta/Policy", "meta/TaxonomyTerm"} <= META_TYPES
    ensures |"meta/EntityType"| == 15 && |"meta/EdgeType"| == 13 && |"meta/Struct"| == 11 && |"meta/Policy"| == 11 && |"meta/TaxonomyTerm"| == 17
    ensures "meta/Policy"[5] == 'P' && "meta/Struct"[5] == 'S'
  {
  }

  lemma PlacelessCarries(parent: Objects, op: Value, t: Touched)
    requires ParseOp(op) == Ok(t)
    ensures Carries(parent, op, Placeless(parent, t))
  {
    assert op == Map(map[t.verb := t.payload]) by {
      ParsedIs(op, t);
    }
    SugarIs(parent, t);
    ImportedIs(t.payload);
    hide Labelled, SugarOf, IsImported, ParseOp;
  }

  lemma ParsedIs(op: Value, t: Touched)
    ensures ParseOp(op) == Ok(t) <==> op == Map(map[t.verb := t.payload])
  {
    if op == Map(map[t.verb := t.payload]) {
      ParsesSingle(t.verb, t.payload);
    }
    if ParseOp(op) == Ok(t) {
      assert op.m.Keys == {t.verb} && op.m[t.verb] == t.payload;
      assert op.m == map[t.verb := t.payload];
    }
  }

  lemma ImportedIs(payload: Value)
    ensures IsImported(payload) <==> Get(payload, "provenance").Some? && exists r :: Derives(Get(payload, "provenance").value, r) && "allod:" <= r
  {
    var items := GetSeq(Provenance(payload), "derived_from").GetOr([]);
    assert forall r :: r in Strings(items) <==> Str(r) in items;
    assert Get(payload, "provenance").Some? ==> forall r :: Derives(Get(payload, "provenance").value, r) <==> Str(r) in items;
    hide Strings, GetSeq;
  }

  lemma {:induction false} CreatedIs(ops: seq<Value>, subject: string, term: string)
    ensures (subject, term) in CreatedClassifications(ops) <==> exists op :: op in ops && Classifying(op, subject, term)
  {
    if ops == [] {
    } else {
      CreatedIs(ops[1..], subject, term);
      assert ops == [ops[0]] + ops[1..];
      FirstCreated(ops, subject, term);
      hide CreatedClassifications, Classifying;
    }
  }

  lemma FirstCreated(ops: seq<Value>, subject: string, term: string)
    requires ops != []
    ensures (subject, term) in CreatedClassifications(ops) <==> Classifying(ops[0], subject, term) || (subject, term) in CreatedClassifications(ops[1..])
  {
    forall payload ensures ops[0] == Map(map["create" := payload]) <==> ParseOp(ops[0]) == Ok(Touched("create", payload)) {
      ParsedIs(ops[0], Touched("create", payload));
    }
    hide ParseOp;
  }

  lemma {:induction false} TermsForIs(created: seq<(string, string)>, objRef: string, term: string)
    ensures term in TermsFor(created, objRef) <==> (objRef, term) in created
  {
    if created == [] {
    } else {
      TermsForIs(created[1..], objRef, term);
      assert created == [created[0]] + created[1..];
    }
  }

  lemma PlacingIs(parent: Objects, ops: seq<Value>, t: Touched, term: string)
    ensures term in PlacingTerms(parent, CreatedClassifications(ops), t) <==> Places(parent, ops, Placeless(parent, t), term)
  {
    var objRef := GetStr(t.payload, "kind").GetOr("") + ":" + GetStr(t.payload, "id").GetOr("");
    TermsForIs(CreatedClassifications(ops), objRef, term);
    CreatedIs(ops, objRef, term);
    TermsOfMember(parent, InOrder(parent.Keys), objRef, term);
    hide TypeRefOf, BasisOf, IsImported, SugarOf, CreatedClassifications, TermsFor, Classifying, TermsOf, InOrder;
  }

  lemma PlacesAlike(parent: Objects, ops: seq<Value>, c: OpContext, d: OpContext, term: string)
    requires c.kind == d.kind && c.payload == d.payload
    ensures Places(parent, ops, c, term) <==> Places(parent, ops, d, term)
  {
    hide Classifying, Relates, LiveOfKind;
  }

  lemma RegionsAre(reg: Registry, parent: Objects, ops: seq<Value>, t: Touched, region: string)
    ensures var ctx := ContextOf(reg, parent, CreatedClassifications(ops), t);
            region in ctx.regions <==> LiesIn(reg, parent, ops, ctx, region)
  {
    var bare, ctx := Placeless(parent, t), ContextOf(reg, parent, CreatedClassifications(ops), t);
    var terms := PlacingTerms(parent, CreatedClassifications(ops), t);
    assert ctx.kind == bare.kind && ctx.payload == bare.payload && ctx.regions == RegionsOf(reg, terms);
    hide Placeless, ContextOf, PlacingTerms, Places, TermClosure;
    forall term ensures term in terms <==> Places(parent, ops, ctx, term) {
      PlacingIs(parent, ops, t, term);
      PlacesAlike(parent, ops, bare, ctx, term);
    }
    forall term ensures region in TermClosure(reg, term) <==> Reaches(Broader(reg), Bare(term), region) {
      TermClosureMembers(reg, term, region);
    }
    hide Reaches, Broader, Bare;
  }

  lemma CarriesAlike(parent: Objects, op: Value, c: OpContext, regions: set<string>)
    requires Carries(parent, op, c)
    ensures Carries(parent, op, c.(regions := regions))
  {
    var d := c.(regions := regions);
    assert TypeCarried(parent, d) == TypeCarried(parent, c);
    assert forall name :: Labelled(d, name) <==> Labelled(c, name);
    hide TypeCarried, Labelled, Derives, ProvenanceStr;
  }

  /** What is known of one operation. */
  ghost predicate Known(reg: Registry, parent: Objects, ops: seq<Value>, op: Value, ctx: OpContext) {
    Carries(parent, op, ctx) && forall region :: region in ctx.regions <==> LiesIn(reg, parent, ops, ctx, region)
  }

  lemma ContextKnown(reg: Registry, parent: Objects, ops: seq<Value>, op: Value, t: Touched)
    requires ParseOp(op) == Ok(t)
    ensures Known(reg, parent, ops, op, ContextOf(reg, parent, CreatedClassifications(ops), t))
  {
    var ctx := ContextOf(reg, parent, CreatedClassifications(ops), t);
    assert ctx == Placeless(parent, t).(regions := ctx.regions);
    PlacelessCarries(parent, op, t);
    hide ContextOf, Placeless, LiesIn, Carries;
    CarriesAlike(parent, op, Placeless(parent, t), ctx.regions);
    forall region ensures region in ctx.regions <==> LiesIn(reg, parent, ops, ctx, region) {
      RegionsAre(reg, parent, ops, t, region);
    }
  }

  lemma {:induction false} EachKnown(reg: Registry, parent: Objects, all: seq<Value>, ops: seq<Value>)
    ensures var r := ContextsOf(reg, parent, CreatedClassifications(all), ops);
            && (r.Ok? <==> forall op :: op in ops ==> ParseOp(op).Ok?)
            && (r.Ok? ==> |r.value| == |ops| && forall i :: 0 <= i < |ops| ==> Known(reg, parent, all, ops[i], r.value[i]))
    decreases |ops|
  {
    hide ContextOf, Known, ParseOp, CreatedClassifications;
    if ops == [] {
    } else {
      EachKnown(reg, parent, all, ops[1..]);
      assert ops == [ops[0]] + ops[1..];
      if ParseOp(ops[0]).Ok? {
        ContextKnown(reg, parent, all, ops[0], ParseOp(ops[0]).value);
      }
    }
  }

  /** Every operation is looked at, in order; contexts exist exactly when each operation is a mapping of one verb. */
  lemma ContextsKnown(reg: Registry, parent: Objects, cs: Value, ops: seq<Value>)
    requires GetSeq(cs, "operations") == Some(ops)
    ensures OpContexts(reg, parent, cs).Ok? <==> forall op :: op in ops ==> exists verb, payload :: op == Map(map[verb := payload])
    ensures OpContexts(reg, parent, cs).Ok? ==>
              var ctxs := OpContexts(reg, parent, cs).value;
              |ctxs| == |ops| && forall i :: 0 <= i < |ops| ==> Known(reg, parent, ops, ops[i], ctxs[i])
  {
    EachKnown(reg, parent, ops, ops);
    forall op ensures ParseOp(op).Ok? <==> exists verb, payload :: op == Map(map[verb := payload]) {
      if ParseOp(op).Ok? {
        ParsedIs(op, ParseOp(op).value);
      }
      if verb, payload :| op == Map(map[verb := payload]) {
        ParsedIs(op, Touched(verb, payload));
      }
    }
    hide Known, ParseOp, ContextsOf, CreatedClassifications;
  }

  // ---------------------------------------------------------------- what a rule asks for

  /** The rule has a name, a selector that selects the operation, and requirements. */
  ghost predicate Fires(reg: Registry, authorKind: string, rule: Value, ctx: OpContext) {
    && GetStr(rule, "name").Some? && Get(rule, "require").Some?
    && Get(rule, "select").Some? && Selects(reg, authorKind, ctx, Get(rule, "select").value)
  }

  ghost predicate FiresOn(reg: Registry, authorKind: string, rules: seq<Value>, ctxs: seq<OpContext>, rule: Value) {
    rule in rules && exists ctx :: ctx in ctxs && Fires(reg, authorKind, rule, ctx)
  }

  /** `require` asks, alone or in a list, for so many of a role; for one when it gives no number. */
  ghost predicate AsksFor(require: Value, role: string, quorum: nat) {
    Get(require, "reviewers").Some? &&
    exists entry ::
      && (if Get(require, "reviewers").value.Seq? then entry in Get(require, "reviewers").value.items else entry == Get(require, "reviewers").value)
      && GetStr(entry, "role") == Some(role)
      && (if Get(entry, "quorum").Some? && AsNat(Get(entry, "quorum").value).Some? then Get(entry, "quorum") == Some(Num(quorum)) else quorum == 1)
  }

  ghost predicate AsksClass(require: Value, class_: string) {
    Get(require, "attestation_required").Some? && GetStr(Get(require, "attestation_required").value, "attester_class") == Some(class_)
  }

  lemma AsksIs(require: Value, role: string, quorum: nat)
    ensures AsksReviewers(require, (role, quorum)) <==> AsksFor(require, role, quorum)
  {
    forall entry ensures ReviewersIn(entry) == Some((role, quorum)) <==>
      GetStr(entry, "role") == Some(role)
      && (if Get(entry, "quorum").Some? && AsNat(Get(entry, "quorum").value).Some? then Get(entry, "quorum") == Some(Num(quorum)) else quorum == 1) {
    }
    hide ReviewersIn, GetStr;
  }

  lemma FiresIs(reg: Registry, authorKind: string, rule: Value, ctx: OpContext)
    ensures Fires(reg, authorKind, rule, ctx) <==> RuleMatches(reg, rule, authorKind, ctx)
  {
    if Get(rule, "select").Some? {
      SelectsIs(reg, authorKind, ctx, Get(rule, "select").value);
    }
    hide Selects, SelectorMatches, GetStr;
  }

  lemma FiresOnIs(reg: Registry, authorKind: string, rules: seq<Value>, ctxs: seq<OpContext>)
    ensures forall rule :: FiresOn(reg, authorKind, rules, ctxs, rule) <==> Matched(reg, rules, authorKind, ctxs, rule)
    ensures forall ctx :: Unmatched(reg, rules, authorKind, ctx) <==> forall rule :: rule in rules ==> !Fires(reg, authorKind, rule, ctx)
  {
    forall rule, ctx ensures Fires(reg, authorKind, rule, ctx) <==> RuleMatches(reg, rule, authorKind, ctx) {
      FiresIs(reg, authorKind, rule, ctx);
    }
    hide Fires, RuleMatches;
  }

  /**
   * An evaluation asks for what the rules that fire on some operation ask for, whole and no more. A root
   * is needed when no rule fires on some operation, under the restricted posture, which is also the default.
   */
  lemma ChecklistIs(reg: Registry, policy: Value, rules: seq<Value>, authorKind: string, ctxs: seq<OpContext>, list: Checklist)
    requires IsUnion(reg, rules, authorKind, ctxs, IsRestricted(policy), list)
    ensures forall n :: n in list.matchedRules <==> exists rule :: FiresOn(reg, authorKind, rules, ctxs, rule) && GetStr(rule, "name") == Some(n)
    ensures forall role, quorum: nat :: (role, quorum) in list.reviewers <==>
              exists rule :: FiresOn(reg, authorKind, rules, ctxs, rule) && AsksFor(Get(rule, "require").value, role, quorum)
    ensures forall c :: c in list.attestations <==>
              exists rule :: FiresOn(reg, authorKind, rules, ctxs, rule) && AsksClass(Get(rule, "require").value, c)
    ensures list.rootRequired <==>
              && GetStr(policy, "default_posture") in {None, Some("restricted")}
              && exists ctx :: ctx in ctxs && forall rule :: rule in rules ==> !Fires(reg, authorKind, rule, ctx)
  {
    hide *;
    NamesListed(reg, authorKind, rules, ctxs, IsRestricted(policy), list);
    MatchedRequires(reg, authorKind, rules, ctxs);
    forall role, quorum: nat
      ensures (role, quorum) in list.reviewers <==>
              exists rule :: FiresOn(reg, authorKind, rules, ctxs, rule) && AsksFor(Get(rule, "require").value, role, quorum) {
      ReviewersListed(reg, authorKind, rules, ctxs, IsRestricted(policy), list, role, quorum);
    }
    forall c ensures c in list.attestations <==> exists rule :: FiresOn(reg, authorKind, rules, ctxs, rule) && AsksClass(Get(rule, "require").value, c) {
      ClassListed(reg, authorKind, rules, ctxs, IsRestricted(policy), list, c);
    }
    RootAsked(reg, policy, rules, authorKind, ctxs, list);
  }

  lemma NamesListed(reg: Registry, authorKind: string, rules: seq<Value>, ctxs: seq<OpContext>, restricted: bool, list: Checklist)
    requires IsUnion(reg, rules, authorKind, ctxs, restricted, list)
    ensures forall n :: n in list.matchedRules <==> exists rule :: FiresOn(reg, authorKind, rules, ctxs, rule) && GetStr(rule, "name") == Some(n)
  {
    FiresOnIs(reg, authorKind, rules, ctxs);
    hide FiresOn, Matched, Unmatched, AsksReviewers, AskedClass, Distinct, GetStr;
  }

  lemma RootAsked(reg: Registry, policy: Value, rules: seq<Value>, authorKind: string, ctxs: seq<OpContext>, list: Checklist)
    requires IsUnion(reg, rules, authorKind, ctxs, IsRestricted(policy), list)
    ensures list.rootRequired <==>
              && GetStr(policy, "default_posture") in {None, Some("restricted")}
              && exists ctx :: ctx in ctxs && forall rule :: rule in rules ==> !Fires(reg, authorKind, rule, ctx)
  {
    FiresOnIs(reg, authorKind, rules, ctxs);
    UnionRoot(reg, rules, authorKind, ctxs, IsRestricted(policy), list);
    hide IsUnion, Fires, FiresOn, Matched, Unmatched, GetStr;
    assert IsRestricted(policy) <==> GetStr(policy, "default_posture") in {None, Some("restricted")};
  }

  lemma UnionRoot(reg: Registry, rules: seq<Value>, authorKind: string, ctxs: seq<OpContext>, restricted: bool, list: Checklist)
    requires IsUnion(reg, rules, authorKind, ctxs, restricted, list)
    ensures list.rootRequired <==> restricted && exists c :: c in ctxs && Unmatched(reg, rules, authorKind, c)
  {
    hide Matched, Unmatched, AsksReviewers, AskedClass, Distinct;
  }

  lemma ReviewersListed(reg: Registry, authorKind: string, rules: seq<Value>, ctxs: seq<OpContext>, restricted: bool, list: Checklist, role: string, quorum: nat)
    requires IsUnion(reg, rules, authorKind, ctxs, restricted, list)
    ensures (role, quorum) in list.reviewers <==>
              exists rule :: FiresOn(reg, authorKind, rules, ctxs, rule) && AsksFor(Get(rule, "require").value, role, quorum)
  {
    FiresOnIs(reg, authorKind, rules, ctxs);
    MatchedRequires(reg, authorKind, rules, ctxs);
    hide FiresOn, Matched, Unmatched, AsksReviewers, AsksFor, AskedClass, Distinct;
    forall rule | FiresOn(reg, authorKind, rules, ctxs, rule)
      ensures AsksReviewers(Get(rule, "require").value, (role, quorum)) <==> AsksFor(Get(rule, "require").value, role, quorum) {
      AsksIs(Get(rule, "require").value, role, quorum);
    }
    assert (role, quorum) in list.reviewers <==>
             exists rule :: Matched(reg, rules, authorKind, ctxs, rule) && AsksReviewers(Get(rule, "require").value, (role, quorum));
  }

  lemma ClassListed(reg: Registry, authorKind: string, rules: seq<Value>, ctxs: seq<OpContext>, restricted: bool, list: Checklist, c: string)
    requires IsUnion(reg, rules, authorKind, ctxs, restricted, list)
    ensures c in list.attestations <==> exists rule :: FiresOn(reg, authorKind, rules, ctxs, rule) && AsksClass(Get(rule, "require").value, c)
  {
    FiresOnIs(reg, authorKind, rules, ctxs);
    MatchedRequires(reg, authorKind, rules, ctxs);
    hide FiresOn, Matched, Unmatched, AsksReviewers, Distinct;
    forall rule | FiresOn(reg, authorKind, rules, ctxs, rule)
      ensures AskedClass(Get(rule, "require").value) == Some(c) <==> AsksClass(Get(rule, "require").value, c) {
    }
    hide AskedClass, AsksClass;
  }

  lemma MatchedRequires(reg: Registry, authorKind: string, rules: seq<Value>, ctxs: seq<OpContext>)
    ensures forall rule :: FiresOn(reg, authorKind, rules, ctxs, rule) ==> Get(rule, "require").Some?
  {
    hide Selects;
  }
}
