/**
 * Policy evaluation (crates/allod-core/src/policy.rs:39-326): the requirements of a proposal are the
 * union of what every matching rule asks for.
 */
module Policy {
  import opened Text
  import opened Values
  import opened Objects
  import opened Registries
  import opened Meta
  import opened Fold

  /** What the selectors see of one operation. */
  datatype OpContext = OpContext(
    verb: string, kind: string, typeRef: string, basis: Option<string>, imported: bool,
    regions: set<string>, payload: Value, sugar: seq<string>)

  /** The labels policy rules may use for operations on meta nodes. */
  function SugarVerbs(bareType: string, payload: Value): seq<string> {
    if bareType == "meta/EntityType" || bareType == "meta/EdgeType" || bareType == "meta/Struct" then ["define-type"]
    else if bareType == "meta/Policy" then ["set-policy"]
    else if bareType == "meta/TaxonomyTerm" && GetStr(AttributesOf(payload), "status") == Some("deprecated") then ["deprecate-term"]
    else []
  }

  /** Subjects and terms of the classifications a proposal creates. */
  function CreatedClassifications(ops: seq<Value>): seq<(string, string)> {
    if ops == [] then []
    else
      var rest := CreatedClassifications(ops[1..]);
      match ParseOp(ops[0])
      case Err(_) => rest
      case Ok(t) =>
        match (GetStr(t.payload, "subject"), GetStr(t.payload, "term"))
        case (Some(subject), Some(term)) =>
          if t.verb == "create" && GetStr(t.payload, "kind") == Some("classification") then [(subject, term)] + rest else rest
        case _ => rest
  }

  function TermsFor(created: seq<(string, string)>, objRef: string): seq<string> {
    if created == [] then []
    else (if created[0].0 == objRef then [created[0].1] else []) + TermsFor(created[1..], objRef)
  }

  /** Deletes carry no type; it is looked up in the parent state. */
  function TypeRefOf(parent: Objects, t: Touched): string {
    var kind, id, given := GetStr(t.payload, "kind").GetOr(""), GetStr(t.payload, "id").GetOr(""), GetStr(t.payload, "type").GetOr("");
    if t.verb == "delete" && kind == "node" && given == "" then
      match GetLive(parent, "node", id)
      case Some(o) => GetStr(o.content, "type").GetOr(given)
      case None => given
    else given
  }

  function Provenance(payload: Value): Value {
    Get(payload, "provenance").GetOr(Null)
  }

  function BasisOf(payload: Value): Option<string> {
    match GetStr(payload, "basis")
    case Some(b) => Some(b)
    case None => GetStr(Provenance(payload), "method")
  }

  predicate IsImported(payload: Value) {
    exists r | r in Strings(GetSeq(Provenance(payload), "derived_from").GetOr([])) :: "allod:" <= r
  }

  /** The classification terms that place an operation: its own, or those of its object. */
  function PlacingTerms(parent: Objects, created: seq<(string, string)>, t: Touched): seq<string> {
    var kind := GetStr(t.payload, "kind").GetOr("");
    if kind == "classification" then
      match GetStr(t.payload, "term") case Some(term) => [term] case None => []
    else
      var objRef := kind + ":" + GetStr(t.payload, "id").GetOr("");
      ClassificationsOf(parent, objRef) + TermsFor(created, objRef)
  }

  ghost function RegionsOf(reg: Registry, terms: seq<string>): set<string> {
    set t, x | t in terms && x in TermClosure(reg, t) :: x
  }

  function SugarOf(parent: Objects, t: Touched): seq<string> {
    var typeRef := TypeRefOf(parent, t);
    if GetStr(t.payload, "kind") == Some("node") && typeRef != "" && IsMetaType(typeRef) then SugarVerbs(Bare(typeRef), t.payload) else []
  }

  /** A context without its regions. */
  function Placeless(parent: Objects, t: Touched): OpContext {
    OpContext(t.verb, GetStr(t.payload, "kind").GetOr(""), TypeRefOf(parent, t), BasisOf(t.payload), IsImported(t.payload),
              {}, t.payload, SugarOf(parent, t))
  }

  ghost function ContextOf(reg: Registry, parent: Objects, created: seq<(string, string)>, t: Touched): OpContext {
    Placeless(parent, t).(regions := RegionsOf(reg, PlacingTerms(parent, created, t)))
  }

  ghost function ContextsOf(reg: Registry, parent: Objects, created: seq<(string, string)>, ops: seq<Value>): Result<seq<OpContext>>
    decreases |ops|
  {
    if ops == [] then Ok([])
    else
      var t :- ParseOp(ops[0]);
      var rest :- ContextsOf(reg, parent, created, ops[1..]);
      Ok([ContextOf(reg, parent, created, t)] + rest)
  }

  /** One context per operation; classifications the proposal creates count as already there. */
  ghost function OpContexts(reg: Registry, parent: Objects, cs: Value): Result<seq<OpContext>> {
    var ops :- OrErr(GetSeq(cs, "operations"), "changeset needs operations");
    ContextsOf(reg, parent, CreatedClassifications(ops), ops)
  }

  // ---------------------------------------------------------------- selectors

  predicate OperationMatches(v: Value, ctx: OpContext) {
    var verbs := OneOrMany(v);
    ctx.verb in verbs || exists s | s in ctx.sugar :: s in verbs
  }

  predicate WhereMatches(cond: Value, payload: Value) {
    match GetStr(cond, "attr")
    case None => true
    case Some(attr) =>
      var value := Get(AttributesOf(payload), attr);
      match Get(cond, "equals")
      case Some(expected) => value == Some(expected)
      case None =>
        match GetSeq(cond, "in")
        case Some(options) => value.Some? && value.value in options
        case None => value.Some?
  }

  /** A bare map conjoins its keys. */
  predicate KeysMatch(reg: Registry, sel: Value, authorKind: string, ctx: OpContext) {
    && (match GetStr(sel, "author_kind") case Some(k) => k == authorKind case None => true)
    && (match GetStr(sel, "basis") case Some(b) => ctx.basis == Some(b) case None => true)
    && (match GetStr(sel, "region") case Some(r) => Bare(r) in ctx.regions case None => true)
    && (match GetStr(sel, "type")
        case Some(t) => (ctx.kind == "node" || ctx.kind == "edge") && TypeSatisfies(reg, ctx.typeRef, t, None)
        case None => true)
    && (match Get(sel, "operation") case Some(v) => OperationMatches(v, ctx) case None => true)
    && (match Get(sel, "imported") case Some(v) => (v == Bool(true) || v.Str?) ==> ctx.imported case None => true)
    && (match Get(sel, "where") case Some(cond) => WhereMatches(cond, ctx.payload) case None => true)
    && GetStr(sel, "substrate").None?
  }

  predicate SelectorMatches(reg: Registry, sel: Value, authorKind: string, ctx: OpContext)
    decreases sel
  {
    if GetSeq(sel, "all").Some? then forall s | s in sel.m["all"].items :: SelectorMatches(reg, s, authorKind, ctx)
    else if GetSeq(sel, "any").Some? then exists s | s in sel.m["any"].items :: SelectorMatches(reg, s, authorKind, ctx)
    else if Get(sel, "not").Some? then !SelectorMatches(reg, sel.m["not"], authorKind, ctx)
    else KeysMatch(reg, sel, authorKind, ctx)
  }

  // ---------------------------------------------------------------- rules

  /** A role and how many of its members must approve. */
  type Reviewers = (string, nat)

  predicate IsRule(rule: Value) {
    GetStr(rule, "name").Some? && Get(rule, "select").Some? && Get(rule, "require").Some?
  }

  predicate RuleMatches(reg: Registry, rule: Value, authorKind: string, ctx: OpContext) {
    IsRule(rule) && SelectorMatches(reg, Get(rule, "select").value, authorKind, ctx)
  }

  function ReviewerEntries(require: Value): seq<Value> {
    match Get(require, "reviewers")
    case Some(Seq(items)) => items
    case Some(one) => [one]
    case None => []
  }

  function ReviewersIn(entry: Value): Option<Reviewers> {
    match GetStr(entry, "role")
    case None => None
    case Some(role) => Some((role, match Get(entry, "quorum") case Some(v) => AsNat(v).GetOr(1) case None => 1))
  }

  predicate AsksReviewers(require: Value, r: Reviewers) {
    exists e | e in ReviewerEntries(require) :: ReviewersIn(e) == Some(r)
  }

  function AskedClass(require: Value): Option<string> {
    match Get(require, "attestation_required") case Some(a) => GetStr(a, "attester_class") case None => None
  }

  /** The rules that match some operation. */
  ghost predicate Matched(reg: Registry, rules: seq<Value>, authorKind: string, ctxs: seq<OpContext>, rule: Value) {
    rule in rules && exists c :: c in ctxs && RuleMatches(reg, rule, authorKind, c)
  }

  ghost predicate Unmatched(reg: Registry, rules: seq<Value>, authorKind: string, c: OpContext) {
    forall rule :: rule in rules ==> !RuleMatches(reg, rule, authorKind, c)
  }

  /** `reviewers` and `attestations` list without repetition. */
  datatype Checklist = Checklist(matchedRules: set<string>, reviewers: seq<Reviewers>, attestations: seq<string>, rootRequired: bool)

  const NO_REQUIREMENTS := Checklist({}, [], [], false)

  /** The checklist asks exactly for what the matching pairs of operation and rule ask for. */
  ghost predicate IsUnion(reg: Registry, rules: seq<Value>, authorKind: string, ctxs: seq<OpContext>, restricted: bool, list: Checklist) {
    && (forall n :: n in list.matchedRules <==> exists rule :: Matched(reg, rules, authorKind, ctxs, rule) && GetStr(rule, "name") == Some(n))
    && (forall r :: r in list.reviewers <==>
          exists rule :: Matched(reg, rules, authorKind, ctxs, rule) && AsksReviewers(Get(rule, "require").value, r))
    && (forall a :: a in list.attestations <==>
          exists rule :: Matched(reg, rules, authorKind, ctxs, rule) && AskedClass(Get(rule, "require").value) == Some(a))
    && (list.rootRequired <==> restricted && exists c :: c in ctxs && Unmatched(reg, rules, authorKind, c))
    && Distinct(list.reviewers) && Distinct(list.attestations)
  }

  // ---------------------------------------------------------------- the program's loops

  method RegionsLoop(reg: Registry, terms: seq<string>) returns (regions: set<string>)
    ensures regions == RegionsOf(reg, terms)
  {
    regions := {};
    for i := 0 to |terms|
      invariant regions == RegionsOf(reg, terms[..i])
    {
      var closure := TermClosureLoop(reg, terms[i]);
      regions := regions + closure;
      assert terms[..i + 1] == terms[..i] + [terms[i]];
    }
    assert terms[..|terms|] == terms;
  }

  method BuildContexts(reg: Registry, parent: Objects, cs: Value) returns (r: Result<seq<OpContext>>)
    ensures r == OpContexts(reg, parent, cs)
  {
    if GetSeq(cs, "operations").None? {
      return Err("changeset needs operations");
    }
    var ops := GetSeq(cs, "operations").value;
    var created := CreatedClassifications(ops);
    var built: seq<OpContext> := [];
    assert ops[0..] == ops;
    ghost var all := ContextsOf(reg, parent, created, ops);
    assert all.Ok? ==> [] + all.value == all.value;
    for i := 0 to |ops|
      invariant ContextsOf(reg, parent, created, ops[i..]).Ok? ==>
                  all == Ok(built + ContextsOf(reg, parent, created, ops[i..]).value)
      invariant ContextsOf(reg, parent, created, ops[i..]).Err? ==> all == ContextsOf(reg, parent, created, ops[i..])
    {
      hide RegionsOf, Placeless, PlacingTerms;
      assert ops[i..][1..] == ops[i + 1..];
      var parsed := ParseOp(ops[i]);
      if parsed.Err? {
        return Err(parsed.error);
      }
      var regions := RegionsLoop(reg, PlacingTerms(parent, created, parsed.value));
      var ctx := Placeless(parent, parsed.value).(regions := regions);
      ghost var rest := ContextsOf(reg, parent, created, ops[i + 1..]);
      if rest.Ok? {
        Append(built, [ctx], rest.value);
      }
      built := built + [ctx];
    }
    assert built + [] == built;
    r := Ok(built);
  }

  /** Add what one matching rule requires. */
  method AddRule(list: Checklist, rule: Value) returns (more: Checklist)
    requires IsRule(rule) && Distinct(list.reviewers) && Distinct(list.attestations)
    ensures more.matchedRules == list.matchedRules + {GetStr(rule, "name").value}
    ensures forall r :: r in more.reviewers <==> r in list.reviewers || AsksReviewers(Get(rule, "require").value, r)
    ensures forall a :: a in more.attestations <==> a in list.attestations || AskedClass(Get(rule, "require").value) == Some(a)
    ensures Distinct(more.reviewers) && Distinct(more.attestations)
    ensures more.rootRequired == list.rootRequired
  {
    var require := Get(rule, "require").value;
    var reviewers := AddReviewers(list.reviewers, ReviewerEntries(require));
    var attestations := list.attestations;
    var asked := AskedClass(require);
    if asked.Some? && asked.value !in attestations {
      attestations := attestations + [asked.value];
    }
    more := Checklist(list.matchedRules + {GetStr(rule, "name").value}, reviewers, attestations, list.rootRequired);
  }

  method AddReviewers(known: seq<Reviewers>, entries: seq<Value>) returns (reviewers: seq<Reviewers>)
    requires Distinct(known)
    ensures Distinct(reviewers)
    ensures forall r :: r in reviewers <==> r in known || exists e :: e in entries && ReviewersIn(e) == Some(r)
  {
    reviewers := known;
    for i := 0 to |entries|
      invariant Distinct(reviewers)
      invariant forall r :: r in reviewers <==> r in known || exists e :: e in entries[..i] && ReviewersIn(e) == Some(r)
    {
      hide ReviewersIn;
      assert entries[..i + 1] == entries[..i] + [entries[i]];
      var found := ReviewersIn(entries[i]);
      ghost var before := reviewers;
      if found.Some? && found.value !in reviewers {
        reviewers := reviewers + [found.value];
      }
      assert forall r :: r in reviewers <==> r in before || found == Some(r);
    }
    assert entries[..|entries|] == entries;
  }

  /** An operation and a rule the evaluation has looked at together. */
  datatype Pair = Pair(ctx: OpContext, rule: Value)

  ghost predicate Hit(reg: Registry, authorKind: string, p: Pair) {
    RuleMatches(reg, p.rule, authorKind, p.ctx)
  }

  /** `list` asks exactly for what the hits among `pairs` ask for. */
  ghost predicate Covers(reg: Registry, authorKind: string, pairs: set<Pair>, list: Checklist) {
    && (forall n :: n in list.matchedRules <==> exists p :: p in pairs && Hit(reg, authorKind, p) && GetStr(p.rule, "name") == Some(n))
    && (forall r :: r in list.reviewers <==>
          exists p :: p in pairs && Hit(reg, authorKind, p) && AsksReviewers(Get(p.rule, "require").value, r))
    && (forall a :: a in list.attestations <==>
          exists p :: p in pairs && Hit(reg, authorKind, p) && AskedClass(Get(p.rule, "require").value) == Some(a))
    && Distinct(list.reviewers) && Distinct(list.attestations)
  }

  lemma CoversHit(reg: Registry, authorKind: string, pairs: set<Pair>, list: Checklist, p: Pair, more: Checklist)
    requires Covers(reg, authorKind, pairs, list) && Hit(reg, authorKind, p)
    requires more.matchedRules == list.matchedRules + {GetStr(p.rule, "name").value}
    requires forall r :: r in more.reviewers <==> r in list.reviewers || AsksReviewers(Get(p.rule, "require").value, r)
    requires forall a :: a in more.attestations <==> a in list.attestations || AskedClass(Get(p.rule, "require").value) == Some(a)
    requires Distinct(more.reviewers) && Distinct(more.attestations)
    ensures Covers(reg, authorKind, pairs + {p}, more)
  {
    hide SelectorMatches, AsksReviewers, AskedClass, Distinct;
    assert GetStr(p.rule, "name") == Some(GetStr(p.rule, "name").value);
    hide Hit, RuleMatches;
  }

  lemma CoversMiss(reg: Registry, authorKind: string, pairs: set<Pair>, list: Checklist, p: Pair)
    requires Covers(reg, authorKind, pairs, list) && !Hit(reg, authorKind, p)
    ensures Covers(reg, authorKind, pairs + {p}, list)
  {
    hide Hit, AsksReviewers, AskedClass, Distinct;
  }

  /** Every operation against every rule. */
  ghost function AllPairs(ctxs: seq<OpContext>, rules: seq<Value>): set<Pair> {
    set c, r | c in ctxs && r in rules :: Pair(c, r)
  }

  ghost function PairsWith(c: OpContext, rules: seq<Value>): set<Pair> {
    set r | r in rules :: Pair(c, r)
  }

  lemma AllPairsSnoc(ctxs: seq<OpContext>, c: OpContext, rules: seq<Value>)
    ensures AllPairs(ctxs + [c], rules) == AllPairs(ctxs, rules) + PairsWith(c, rules)
  {
    forall p ensures p in AllPairs(ctxs + [c], rules) <==> p in AllPairs(ctxs, rules) + PairsWith(c, rules) {
      assert p == Pair(p.ctx, p.rule);
    }
  }

  lemma PairsWithSnoc(c: OpContext, rules: seq<Value>, rule: Value)
    ensures PairsWith(c, rules + [rule]) == PairsWith(c, rules) + {Pair(c, rule)}
  {
  }

  lemma CoversAll(reg: Registry, rules: seq<Value>, authorKind: string, ctxs: seq<OpContext>, rule: Value)
    ensures Matched(reg, rules, authorKind, ctxs, rule) <==>
            exists p :: p in AllPairs(ctxs, rules) && Hit(reg, authorKind, p) && p.rule == rule
  {
    hide RuleMatches;
    if Matched(reg, rules, authorKind, ctxs, rule) {
      var c :| c in ctxs && RuleMatches(reg, rule, authorKind, c);
      assert Pair(c, rule) in AllPairs(ctxs, rules);
    }
  }

  lemma CoversIsUnion(reg: Registry, rules: seq<Value>, authorKind: string, ctxs: seq<OpContext>, restricted: bool, list: Checklist)
    requires Covers(reg, authorKind, AllPairs(ctxs, rules), list)
    requires list.rootRequired <==> restricted && exists c :: c in ctxs && Unmatched(reg, rules, authorKind, c)
    ensures IsUnion(reg, rules, authorKind, ctxs, restricted, list)
  {
    hide Hit, Matched, AsksReviewers, AskedClass, Distinct, AllPairs, Unmatched;
    forall rule ensures Matched(reg, rules, authorKind, ctxs, rule) <==>
                        exists p :: p in AllPairs(ctxs, rules) && Hit(reg, authorKind, p) && p.rule == rule {
      CoversAll(reg, rules, authorKind, ctxs, rule);
    }
  }

  /** One operation against every rule; `hit` tells whether some rule matched. */
  method EvaluateOp(reg: Registry, rules: seq<Value>, authorKind: string, c: OpContext, ghost pairs: set<Pair>, list: Checklist)
    returns (more: Checklist, hit: bool)
    requires Covers(reg, authorKind, pairs, list)
    ensures Covers(reg, authorKind, pairs + PairsWith(c, rules), more)
    ensures hit <==> !Unmatched(reg, rules, authorKind, c)
    ensures more.rootRequired == list.rootRequired
  {
    hide Covers, SelectorMatches, Distinct, AsksReviewers, AskedClass;
    more, hit := list, false;
    assert pairs + PairsWith(c, rules[..0]) == pairs;
    for j := 0 to |rules|
      invariant Covers(reg, authorKind, pairs + PairsWith(c, rules[..j]), more)
      invariant hit <==> !Unmatched(reg, rules[..j], authorKind, c)
      invariant more.rootRequired == list.rootRequired
    {
      var rule := rules[j];
      ghost var before := pairs + PairsWith(c, rules[..j]);
      assert rules[..j + 1] == rules[..j] + [rule];
      PairsWithSnoc(c, rules[..j], rule);
      assert pairs + PairsWith(c, rules[..j + 1]) == before + {Pair(c, rule)};
      if RuleMatches(reg, rule, authorKind, c) {
        hit := true;
        CoversWithoutRepeats(reg, authorKind, before, more);
        var next := AddRule(more, rule);
        CoversHit(reg, authorKind, before, more, Pair(c, rule), next);
        more := next;
      } else {
        CoversMiss(reg, authorKind, before, more, Pair(c, rule));
      }
    }
    assert rules[..|rules|] == rules;
  }

  lemma CoversWithoutRepeats(reg: Registry, authorKind: string, pairs: set<Pair>, list: Checklist)
    requires Covers(reg, authorKind, pairs, list)
    ensures Distinct(list.reviewers) && Distinct(list.attestations)
  {
  }

  predicate IsRestricted(policy: Value) {
    GetStr(policy, "default_posture").GetOr("restricted") == "restricted"
  }

  /** Evaluate a proposal against the policy in force at its parent. */
  method Evaluate(reg: Registry, policy: Value, parent: Objects, cs: Value, authorKind: string) returns (r: Result<Checklist>)
    ensures r.Ok? <==> GetSeq(policy, "rules").Some? && OpContexts(reg, parent, cs).Ok?
    ensures r.Ok? ==>
              IsUnion(reg, GetSeq(policy, "rules").value, authorKind, OpContexts(reg, parent, cs).value, IsRestricted(policy), r.value)
  {
    hide Covers, IsUnion, OpContexts, Unmatched;
    var restricted := IsRestricted(policy);
    if GetSeq(policy, "rules").None? {
      return Err("policy needs rules");
    }
    var rules := GetSeq(policy, "rules").value;
    var contexts := BuildContexts(reg, parent, cs);
    if contexts.Err? {
      return Err(contexts.error);
    }
    var ctxs, list := contexts.value, NO_REQUIREMENTS;
    NothingCovered(reg, authorKind, rules);
    for i := 0 to |ctxs|
      invariant Covers(reg, authorKind, AllPairs(ctxs[..i], rules), list)
      invariant list.rootRequired <==> restricted && exists c :: c in ctxs[..i] && Unmatched(reg, rules, authorKind, c)
    {
      assert ctxs[..i + 1] == ctxs[..i] + [ctxs[i]];
      AllPairsSnoc(ctxs[..i], ctxs[i], rules);
      var more, hit := EvaluateOp(reg, rules, authorKind, ctxs[i], AllPairs(ctxs[..i], rules), list);
      list := more;
      if !hit && restricted {
        RootFlag(reg, authorKind, AllPairs(ctxs[..i + 1], rules), list);
        list := list.(rootRequired := true);
      }
    }
    assert ctxs[..|ctxs|] == ctxs;
    CoversIsUnion(reg, rules, authorKind, ctxs, restricted, list);
    r := Ok(list);
  }

  lemma NothingCovered(reg: Registry, authorKind: string, rules: seq<Value>)
    ensures Covers(reg, authorKind, AllPairs([], rules), NO_REQUIREMENTS)
  {
  }

  lemma RootFlag(reg: Registry, authorKind: string, pairs: set<Pair>, list: Checklist)
    requires Covers(reg, authorKind, pairs, list)
    ensures Covers(reg, authorKind, pairs, list.(rootRequired := true))
  {
    hide Hit, AsksReviewers, AskedClass, Distinct;
  }

  // ---------------------------------------------------------------- adding rules and operations

  lemma MatchedByEither(reg: Registry, rules: seq<Value>, extra: seq<Value>, authorKind: string, ctxs: seq<OpContext>)
    ensures forall rule :: Matched(reg, rules + extra, authorKind, ctxs, rule) <==>
                           Matched(reg, rules, authorKind, ctxs, rule) || Matched(reg, extra, authorKind, ctxs, rule)
    ensures forall c :: Unmatched(reg, rules + extra, authorKind, c) <==>
                        Unmatched(reg, rules, authorKind, c) && Unmatched(reg, extra, authorKind, c)
  {
    hide RuleMatches;
    assert forall rule :: rule in rules + extra <==> rule in rules || rule in extra;
  }

  /**
   * Two lists of rules together ask exactly for what each of them asks, so appending rules never
   * removes a matched rule, a reviewer or an attestation. They can only lift the need for a root.
   */
  lemma MoreRules(reg: Registry, rules: seq<Value>, extra: seq<Value>, authorKind: string, ctxs: seq<OpContext>, restricted: bool,
                  one: Checklist, other: Checklist, both: Checklist)
    requires IsUnion(reg, rules, authorKind, ctxs, restricted, one)
    requires IsUnion(reg, extra, authorKind, ctxs, restricted, other)
    requires IsUnion(reg, rules + extra, authorKind, ctxs, restricted, both)
    ensures both.matchedRules == one.matchedRules + other.matchedRules
    ensures forall r :: r in both.reviewers <==> r in one.reviewers || r in other.reviewers
    ensures forall a :: a in both.attestations <==> a in one.attestations || a in other.attestations
    ensures both.rootRequired ==> one.rootRequired && other.rootRequired
  {
    MatchedByEither(reg, rules, extra, authorKind, ctxs);
    hide Matched, Unmatched, AsksReviewers, AskedClass, Distinct;
  }

  /** No `not` decides the selector. */
  ghost predicate Positive(sel: Value) {
    if GetSeq(sel, "all").Some? then forall s :: s in sel.m["all"].items ==> Positive(s)
    else if GetSeq(sel, "any").Some? then forall s :: s in sel.m["any"].items ==> Positive(s)
    else Get(sel, "not").None?
  }

  /** The same operation, placed in at least the same regions. */
  ghost predicate Widened(c: OpContext, d: OpContext) {
    d == c.(regions := d.regions) && c.regions <= d.regions
  }

  lemma {:induction false} PositiveIsMonotone(reg: Registry, sel: Value, authorKind: string, c: OpContext, d: OpContext)
    requires Positive(sel) && Widened(c, d)
    requires SelectorMatches(reg, sel, authorKind, c)
    ensures SelectorMatches(reg, sel, authorKind, d)
  {
    hide KeysMatch, Widened;
    if GetSeq(sel, "all").Some? {
      forall s | s in sel.m["all"].items ensures SelectorMatches(reg, s, authorKind, d) {
        PositiveIsMonotone(reg, s, authorKind, c, d);
      }
    } else if GetSeq(sel, "any").Some? {
      var s :| s in sel.m["any"].items && SelectorMatches(reg, s, authorKind, c);
      PositiveIsMonotone(reg, s, authorKind, c, d);
    } else {
      KeysAreMonotone(reg, sel, authorKind, c, d);
    }
  }

  lemma KeysAreMonotone(reg: Registry, sel: Value, authorKind: string, c: OpContext, d: OpContext)
    requires Widened(c, d) && KeysMatch(reg, sel, authorKind, c)
    ensures KeysMatch(reg, sel, authorKind, d)
  {
    hide TypeSatisfies, OperationMatches, WhereMatches;
    assert forall v :: OperationMatches(v, c) == OperationMatches(v, d) by {
      forall v ensures OperationMatches(v, c) == OperationMatches(v, d) {
        SameVerbsMatch(v, c, d);
      }
    }
  }

  lemma SameVerbsMatch(v: Value, c: OpContext, d: OpContext)
    requires Widened(c, d)
    ensures OperationMatches(v, c) == OperationMatches(v, d)
  {
  }

  lemma {:induction false} CreatedConcat(a: seq<Value>, b: seq<Value>)
    ensures CreatedClassifications(a + b) == CreatedClassifications(a) + CreatedClassifications(b)
  {
    if a == [] {
      assert a + b == b;
    } else {
      CreatedConcat(a[1..], b);
      assert (a + b)[1..] == a[1..] + b && (a + b)[0] == a[0];
      hide ParseOp;
    }
  }

  lemma {:induction false} TermsForConcat(a: seq<(string, string)>, b: seq<(string, string)>, objRef: string)
    ensures TermsFor(a + b, objRef) == TermsFor(a, objRef) + TermsFor(b, objRef)
  {
    if a == [] {
      assert a + b == b;
    } else {
      TermsForConcat(a[1..], b, objRef);
      assert (a + b)[1..] == a[1..] + b;
    }
  }

  lemma ContextWidens(reg: Registry, parent: Objects, created: seq<(string, string)>, more: seq<(string, string)>, t: Touched)
    ensures Widened(ContextOf(reg, parent, created, t), ContextOf(reg, parent, created + more, t))
  {
    hide TermClosure, Placeless, ClassificationsOf;
    var objRef := GetStr(t.payload, "kind").GetOr("") + ":" + GetStr(t.payload, "id").GetOr("");
    TermsForConcat(created, more, objRef);
    var a, b := PlacingTerms(parent, created, t), PlacingTerms(parent, created + more, t);
    assert forall x :: x in a ==> x in b;
  }

  /** Contexts of the first operations survive, widened, when operations are appended. */
  lemma {:induction false} ContextsWiden(reg: Registry, parent: Objects, created: seq<(string, string)>, more: seq<(string, string)>,
                                         ops: seq<Value>, extra: seq<Value>)
    requires ContextsOf(reg, parent, created, ops).Ok?
    requires ContextsOf(reg, parent, created + more, ops + extra).Ok?
    ensures var cs, ds := ContextsOf(reg, parent, created, ops).value, ContextsOf(reg, parent, created + more, ops + extra).value;
            |cs| <= |ds| && forall i :: 0 <= i < |cs| ==> Widened(cs[i], ds[i])
    decreases |ops|
  {
    hide ContextOf, Widened, ParseOp;
    if ops == [] {
    } else {
      assert (ops + extra)[1..] == ops[1..] + extra && (ops + extra)[0] == ops[0];
      ContextsWiden(reg, parent, created, more, ops[1..], extra);
      ContextWidens(reg, parent, created, more, ParseOp(ops[0]).value);
    }
  }

  /** A rule that matches some operation still matches it when operations are appended. */
  lemma StaysMatched(reg: Registry, rules: seq<Value>, parent: Objects, a: Value, b: Value, extra: seq<Value>, authorKind: string, rule: Value)
    requires GetSeq(a, "operations").Some? && GetSeq(b, "operations") == Some(GetSeq(a, "operations").value + extra)
    requires OpContexts(reg, parent, a).Ok? && OpContexts(reg, parent, b).Ok?
    requires forall r :: r in rules && Get(r, "select").Some? ==> Positive(Get(r, "select").value)
    requires Matched(reg, rules, authorKind, OpContexts(reg, parent, a).value, rule)
    ensures Matched(reg, rules, authorKind, OpContexts(reg, parent, b).value, rule)
  {
    hide ContextsOf, SelectorMatches, Positive, Widened;
    var ops := GetSeq(a, "operations").value;
    CreatedConcat(ops, extra);
    ContextsWiden(reg, parent, CreatedClassifications(ops), CreatedClassifications(extra), ops, extra);
    var cs, ds := OpContexts(reg, parent, a).value, OpContexts(reg, parent, b).value;
    var c :| c in cs && RuleMatches(reg, rule, authorKind, c);
    var i :| 0 <= i < |cs| && cs[i] == c;
    assert Widened(cs[i], ds[i]);
    PositiveIsMonotone(reg, Get(rule, "select").value, authorKind, c, ds[i]);
    assert ds[i] in ds && RuleMatches(reg, rule, authorKind, ds[i]);
  }

  /**
   * Appending operations, new classifications included, never removes a matched rule, a reviewer or
   * an attestation, provided no selector is decided by `not`.
   */
  lemma MoreOperations(reg: Registry, rules: seq<Value>, parent: Objects, a: Value, b: Value, extra: seq<Value>, authorKind: string,
                       restricted: bool, fewer: Checklist, more: Checklist)
    requires GetSeq(a, "operations").Some? && GetSeq(b, "operations") == Some(GetSeq(a, "operations").value + extra)
    requires OpContexts(reg, parent, a).Ok? && OpContexts(reg, parent, b).Ok?
    requires forall r :: r in rules && Get(r, "select").Some? ==> Positive(Get(r, "select").value)
    requires IsUnion(reg, rules, authorKind, OpContexts(reg, parent, a).value, restricted, fewer)
    requires IsUnion(reg, rules, authorKind, OpContexts(reg, parent, b).value, restricted, more)
    ensures fewer.matchedRules <= more.matchedRules
    ensures forall r :: r in fewer.reviewers ==> r in more.reviewers
    ensures forall t :: t in fewer.attestations ==> t in more.attestations
  {
    forall rule | Matched(reg, rules, authorKind, OpContexts(reg, parent, a).value, rule)
      ensures Matched(reg, rules, authorKind, OpContexts(reg, parent, b).value, rule)
    {
      StaysMatched(reg, rules, parent, a, b, extra, authorKind, rule);
    }
    hide Matched, Unmatched, AsksReviewers, AskedClass, Distinct, OpContexts, Positive;
  }
}
