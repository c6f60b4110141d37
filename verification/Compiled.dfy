/**
 * What compiling documents amounts to (crates/allod-core/src/schemaops.rs:57-194): every definition,
 * rule, term and policy the documents state is created once as a node that says so, and a graph whose
 * genesis is compiled this way is governed by the policy it was compiled with.
 */
module Compiled {
  import opened Text
  import opened Values
  import opened Order
  import opened Hashing
  import opened Objects
  import opened Registries
  import opened Meta
  import opened Fold
  import opened Operations
  import opened Derivation
  import opened Admission
  import opened SchemaOps
  import opened SchemaCompilation

  // ---------------------------------------------------------------- what documents ask for

  /** The attributes of the node that stands for a definition. */
  ghost function Describing(show: Printer, pkg: string, name: string, def: Value, imports: seq<string>): Value {
    var m := map["name" := Str(name), "package" := Str(pkg), "definition" := Str(show(def))];
    if imports == [] then Map(m) else Map(m["imports" := Seq(seq(|imports|, i requires 0 <= i < |imports| => Str(imports[i])))])
  }

  /** A definition of one section of an ontology document. */
  ghost predicate Defines(show: Printer, doc: Value, section: string, attributes: Value) {
    && GetStr(doc, "ontology").Some? && Get(doc, section).Some? && Get(doc, section).value.Map?
    && exists name :: name in Get(doc, section).value.m
         && attributes == Describing(show, GetStr(doc, "ontology").value, name, Get(doc, section).value.m[name], DocImports(doc))
  }

  ghost predicate Rules(show: Printer, doc: Value, attributes: Value) {
    && GetStr(doc, "ontology").Some? && GetSeq(doc, "validation_rules").Some?
    && exists rule :: rule in GetSeq(doc, "validation_rules").value
         && attributes == Describing(show, GetStr(doc, "ontology").value, GetStr(rule, "name").GetOr("unnamed"), rule, DocImports(doc))
  }

  /** A named term with its parents, and its status when it states one. */
  ghost predicate Classifies(doc: Value, attributes: Value) {
    && GetStr(doc, "ontology").None? && GetStr(doc, "taxonomy").Some? && GetSeq(doc, "terms").Some?
    && exists term :: term in GetSeq(doc, "terms").value && GetStr(term, "name").Some? && attributes == TermOf(GetStr(doc, "taxonomy").value, term)
  }

  ghost function TermOf(tax: string, term: Value): Value
    requires GetStr(term, "name").Some?
  {
    var m := map["name" := Str(GetStr(term, "name").value), "taxonomy" := Str(tax),
                 "parents" := Seq(match GetSeq(term, "parents") case Some(ps) => ps case None => [])];
    match GetStr(term, "status") case Some(status) => Map(m["status" := Str(status)]) case None => Map(m)
  }

  /** The document states what a node of this type with these attributes says. */
  ghost predicate States(show: Printer, doc: Value, t: string, attributes: Value) {
    || (t == "meta/EntityType@1" && Defines(show, doc, "entity_types", attributes))
    || (t == "meta/EdgeType@1" && Defines(show, doc, "edge_types", attributes))
    || (t == "meta/Struct@1" && Defines(show, doc, "structs", attributes))
    || (t == "meta/ValidationRule@1" && Rules(show, doc, attributes))
    || (t == "meta/TaxonomyTerm@1" && Classifies(doc, attributes))
  }

  ghost predicate Governs(show: Printer, policy: Option<Value>, t: string, attributes: Value) {
    && t == "meta/Policy@1" && policy.Some?
    && attributes == Map(map["name" := Str(GetStr(policy.value, "policy").GetOr("policy")), "definition" := Str(show(policy.value))])
  }

  /** The operation that creates a node. */
  ghost function Creating(id: string, t: string, attributes: Value): Value {
    Map(map["create" := Map(map["kind" := Str("node"), "id" := Str(id), "type" := Str(t), "attributes" := attributes])])
  }

  // ---------------------------------------------------------------- elements of one document

  /** The element becomes a node of this type with these attributes. */
  ghost predicate Makes(show: Printer, e: Element, t: string, attributes: Value) {
    t == ElementType(e) + "@1" && attributes == Attributes(show, e)
  }

  ghost predicate SomeMakes(show: Printer, es: seq<Element>, t: string, attributes: Value) {
    exists e :: e in es && Makes(show, e, t, attributes)
  }

  lemma SomeMakesJoin(show: Printer, a: seq<Element>, b: seq<Element>, t: string, attributes: Value)
    ensures SomeMakes(show, a + b, t, attributes) <==> SomeMakes(show, a, t, attributes) || SomeMakes(show, b, t, attributes)
  {
    hide Makes;
    assert forall e :: e in a + b <==> e in a || e in b;
  }

  lemma OneMakes(show: Printer, e: Element, t: string, attributes: Value)
    ensures SomeMakes(show, [e], t, attributes) <==> Makes(show, e, t, attributes)
  {
    hide Makes;
    assert e in [e];
  }

  lemma Suffixed()
    ensures "meta/EntityType" + "@1" == "meta/EntityType@1" && "meta/EdgeType" + "@1" == "meta/EdgeType@1" && "meta/Struct" + "@1" == "meta/Struct@1"
    ensures "meta/ValidationRule" + "@1" == "meta/ValidationRule@1" && "meta/TaxonomyTerm" + "@1" == "meta/TaxonomyTerm@1"
    ensures "meta/Policy" + "@1" == "meta/Policy@1"
  {
  }

  lemma SectionAt(section: Section, pkg: string, m: map<string, Value>, imports: seq<string>)
    ensures var es, names := SectionElements(section, pkg, Some(Map(m)), imports), StringsInOrder(m.Keys);
            |es| == |names| && forall i :: 0 <= i < |es| ==> names[i] in m && es[i] == SchemaOps.Definition(section, pkg, names[i], m[names[i]], imports)
  {
    hide StringLess;
    var names := StringsInOrder(m.Keys);
    assert forall i :: 0 <= i < |names| ==> names[i] in names;
  }

  /** One element a name: some element makes the node when some name does. */
  lemma NameMakes(show: Printer, es: seq<Element>, names: seq<string>, t: string, attributes: Value, p: string -> bool)
    requires |es| == |names| && forall i :: 0 <= i < |es| ==> (Makes(show, es[i], t, attributes) <==> p(names[i]))
    ensures SomeMakes(show, es, t, attributes) <==> exists name :: name in names && p(name)
  {
    hide Makes;
    if SomeMakes(show, es, t, attributes) {
      var e :| e in es && Makes(show, e, t, attributes);
      var i :| 0 <= i < |es| && es[i] == e;
      assert names[i] in names;
    }
    if name :| name in names && p(name) {
      var i :| 0 <= i < |names| && names[i] == name;
      assert es[i] in es;
    }
  }

  lemma SectionMakes(show: Printer, section: Section, pkg: string, v: Option<Value>, imports: seq<string>, t: string, attributes: Value)
    ensures SomeMakes(show, SectionElements(section, pkg, v, imports), t, attributes) <==>
            && t == MetaTypeOf(section) + "@1" && v.Some? && v.value.Map?
            && exists name :: name in v.value.m && attributes == Describing(show, pkg, name, v.value.m[name], imports)
  {
    if v.Some? && v.value.Map? {
      MapMakes(show, section, pkg, v.value.m, imports, t, attributes);
    } else {
      NothingMakes(show, t, attributes);
    }
  }

  lemma MapMakes(show: Printer, section: Section, pkg: string, m: map<string, Value>, imports: seq<string>, t: string, attributes: Value)
    ensures SomeMakes(show, SectionElements(section, pkg, Some(Map(m)), imports), t, attributes) <==>
            t == MetaTypeOf(section) + "@1" && exists name :: name in m && attributes == Describing(show, pkg, name, m[name], imports)
  {
    SectionAt(section, pkg, m, imports);
    hide *;
    var es, names := SectionElements(section, pkg, Some(Map(m)), imports), StringsInOrder(m.Keys);
    var fits := t == MetaTypeOf(section) + "@1";
    forall i | 0 <= i < |es| ensures Makes(show, es[i], t, attributes) <==> fits && attributes == Describing(show, pkg, names[i], m[names[i]], imports) {
      DefinitionMakes(show, section, pkg, names[i], m[names[i]], imports, t, attributes);
    }
    NameMakes(show, es, names, t, attributes, name => name in m && fits && attributes == Describing(show, pkg, name, m[name], imports));
  }

  lemma DefinitionMakes(show: Printer, section: Section, pkg: string, name: string, def: Value, imports: seq<string>, t: string, attributes: Value)
    ensures Makes(show, SchemaOps.Definition(section, pkg, name, def, imports), t, attributes) <==>
            t == MetaTypeOf(section) + "@1" && attributes == Describing(show, pkg, name, def, imports)
  {
    hide MetaTypeOf;
  }

  lemma RulesMake(show: Printer, pkg: string, rules: seq<Value>, imports: seq<string>, t: string, attributes: Value)
    ensures SomeMakes(show, RuleElements(pkg, rules, imports), t, attributes) <==>
            && t == "meta/ValidationRule" + "@1"
            && exists rule :: rule in rules && attributes == Describing(show, pkg, GetStr(rule, "name").GetOr("unnamed"), rule, imports)
  {
    var es := RuleElements(pkg, rules, imports);
    if SomeMakes(show, es, t, attributes) {
      var e :| e in es && Makes(show, e, t, attributes);
      var i :| 0 <= i < |es| && es[i] == e;
      assert rules[i] in rules;
    }
    if rule :| t == "meta/ValidationRule" + "@1" && rule in rules
               && attributes == Describing(show, pkg, GetStr(rule, "name").GetOr("unnamed"), rule, imports) {
      var i :| 0 <= i < |rules| && rules[i] == rule;
      assert es[i] in es && Makes(show, es[i], t, attributes);
    }
  }

  lemma {:induction false} TermsMake(show: Printer, tax: string, terms: seq<Value>, t: string, attributes: Value)
    ensures SomeMakes(show, TermElements(tax, terms), t, attributes) <==>
            && t == "meta/TaxonomyTerm" + "@1"
            && exists term :: term in terms && GetStr(term, "name").Some? && attributes == TermOf(tax, term)
  {
    if terms == [] {
    } else {
      var first, rest := terms[0], terms[1..];
      TermsMake(show, tax, rest, t, attributes);
      assert terms == [first] + rest;
      if GetStr(first, "name").Some? {
        var e := Term(tax, GetStr(first, "name").value, GetSeq(first, "parents").GetOr([]), GetStr(first, "status"));
        assert Attributes(show, e) == TermOf(tax, first);
        SomeMakesJoin(show, [e], TermElements(tax, rest), t, attributes);
        OneMakes(show, e, t, attributes);
        hide TermElements, Attributes, TermOf, GetStr;
      }
    }
  }

  lemma DocMakes(show: Printer, doc: Value, t: string, attributes: Value)
    ensures SomeMakes(show, DocElements(doc), t, attributes) <==> States(show, doc, t, attributes)
  {
    Suffixed();
    hide SomeMakes, SectionElements, RuleElements, TermElements, Describing, TermOf, DocImports;
    if GetStr(doc, "ontology").Some? {
      var pkg, imports := GetStr(doc, "ontology").value, DocImports(doc);
      var a, b := SectionElements(EntityType, pkg, Get(doc, "entity_types"), imports), SectionElements(EdgeType, pkg, Get(doc, "edge_types"), imports);
      var c, d := SectionElements(Struct, pkg, Get(doc, "structs"), imports), RuleElements(pkg, GetSeq(doc, "validation_rules").GetOr([]), imports);
      assert DocElements(doc) == a + b + c + d;
      SomeMakesJoin(show, a, b, t, attributes);
      SomeMakesJoin(show, a + b, c, t, attributes);
      SomeMakesJoin(show, a + b + c, d, t, attributes);
      SectionMakes(show, EntityType, pkg, Get(doc, "entity_types"), imports, t, attributes);
      SectionMakes(show, EdgeType, pkg, Get(doc, "edge_types"), imports, t, attributes);
      SectionMakes(show, Struct, pkg, Get(doc, "structs"), imports, t, attributes);
      RulesMake(show, pkg, GetSeq(doc, "validation_rules").GetOr([]), imports, t, attributes);
    } else if GetStr(doc, "taxonomy").Some? {
      TermsMake(show, GetStr(doc, "taxonomy").value, GetSeq(doc, "terms").GetOr([]), t, attributes);
    } else {
      NothingMakes(show, t, attributes);
    }
  }

  lemma NothingMakes(show: Printer, t: string, attributes: Value)
    ensures !SomeMakes(show, [], t, attributes)
  {
  }

  lemma {:induction false} DocsMake(show: Printer, docs: seq<Named>, t: string, attributes: Value)
    ensures SomeMakes(show, DocsElements(docs), t, attributes) <==> exists d :: d in docs && States(show, d.1, t, attributes)
  {
    hide SomeMakes, States, DocElements;
    if docs == [] {
      NothingMakes(show, t, attributes);
    } else {
      var front, last := docs[..|docs| - 1], docs[|docs| - 1];
      assert docs == front + [last];
      DocsMake(show, front, t, attributes);
      DocMakes(show, last.1, t, attributes);
      SomeMakesJoin(show, DocsElements(front), DocElements(last.1), t, attributes);
    }
  }

  /** The nodes compiled operations create are exactly those the documents and the policy state. */
  lemma CompiledOps(show: Printer, mint: Mint, docs: seq<Named>, policy: Option<Value>, t: string, attributes: Value)
    ensures var ops := CreateNodes(show, mint, Elements(docs, policy));
            (exists i :: 0 <= i < |ops| && ops[i] == Creating(mint(i), t, attributes)) <==>
            (exists d :: d in docs && States(show, d.1, t, attributes)) || Governs(show, policy, t, attributes)
  {
    var es := Elements(docs, policy);
    DocsMake(show, docs, t, attributes);
    PolicyMakes(show, policy, t, attributes);
    SomeMakesJoin(show, DocsElements(docs), PolicyElements(policy), t, attributes);
    OpsMake(show, mint, es, t, attributes);
    hide PolicyElements, States, Governs, DocsElements, SomeMakes, Creating, CreateNodes;
  }

  lemma OpsMake(show: Printer, mint: Mint, es: seq<Element>, t: string, attributes: Value)
    ensures var ops := CreateNodes(show, mint, es);
            (exists i :: 0 <= i < |ops| && ops[i] == Creating(mint(i), t, attributes)) <==> SomeMakes(show, es, t, attributes)
  {
    hide Makes, CreateNode, Creating;
    var ops := CreateNodes(show, mint, es);
    if i :| 0 <= i < |ops| && ops[i] == Creating(mint(i), t, attributes) {
      CreateMakes(show, mint(i), es[i], t, attributes);
      assert es[i] in es;
    }
    if SomeMakes(show, es, t, attributes) {
      var e :| e in es && Makes(show, e, t, attributes);
      var i :| 0 <= i < |es| && es[i] == e;
      CreateMakes(show, mint(i), e, t, attributes);
      assert ops[i] == Creating(mint(i), t, attributes);
    }
  }

  lemma CreateMakes(show: Printer, id: string, e: Element, t: string, attributes: Value)
    ensures CreateNode(show, id, e) == Creating(id, t, attributes) <==> Makes(show, e, t, attributes)
  {
    hide Attributes, ElementType;
    var a, b := CreateNode(show, id, e).m["create"].m, Creating(id, t, attributes).m["create"].m;
    if CreateNode(show, id, e) == Creating(id, t, attributes) {
      assert a["type"] == b["type"] && a["attributes"] == b["attributes"];
    }
  }

  lemma PolicyMakes(show: Printer, policy: Option<Value>, t: string, attributes: Value)
    ensures SomeMakes(show, PolicyElements(policy), t, attributes) <==> Governs(show, policy, t, attributes)
  {
    Suffixed();
    if policy.Some? {
      var e := Policy(GetStr(policy.value, "policy").GetOr("policy"), policy.value);
      assert PolicyElements(policy) == [e] && [e][0] == e;
      assert Makes(show, e, t, attributes) <==> Governs(show, policy, t, attributes);
      OneMakes(show, e, t, attributes);
    }
  }

  // ---------------------------------------------------------------- the policy in force

  /** A live node that installs a policy, whatever version of the type it names. */
  ghost predicate Installs(s: Objects, k: Key) {
    OfType(s, k, "meta/Policy")
  }

  /** The node is the least that installs a policy, and this is what its definition reads as. */
  ghost predicate InForce(parse: Parser, s: Objects, k: Key, policy: Value) {
    Installs(s, k) && (forall j :: Installs(s, j) ==> j == k || Before(k, j)) && Reads(parse, s, k, policy)
  }

  lemma InstallsIs(s: Objects, k: Key)
    ensures Installs(s, k) <==> IsPolicyNode(s, k)
  {
    hide Bare;
  }

  /** The node defines the policy. */
  ghost predicate Reads(parse: Parser, s: Objects, k: Key, policy: Value) {
    && k in s && GetStr(AttributesOf(s[k].content), "definition").Some?
    && parse(GetStr(AttributesOf(s[k].content), "definition").value) == Some(policy)
  }

  ghost predicate FirstAt(parse: Parser, s: Objects, keys: seq<Key>, policy: Value, i: int) {
    0 <= i < |keys| && Installs(s, keys[i]) && (forall j :: 0 <= j < i ==> !Installs(s, keys[j])) && Reads(parse, s, keys[i], policy)
  }

  lemma {:induction false} FirstPolicyIs(parse: Parser, s: Objects, keys: seq<Key>, policy: Value)
    requires forall k :: k in keys ==> k in s
    ensures FirstPolicy(parse, s, keys) == Ok(policy) <==> exists i :: FirstAt(parse, s, keys, policy, i)
  {
    hide Installs, IsPolicyNode, AttributesOf, GetStr;
    if keys == [] {
    } else {
      InstallsIs(s, keys[0]);
      FirstPolicyIs(parse, s, keys[1..], policy);
      FirstKey(parse, s, keys, policy);
    }
  }

  lemma FirstKey(parse: Parser, s: Objects, keys: seq<Key>, policy: Value)
    requires keys != []
    ensures Installs(s, keys[0]) ==> ((exists i :: FirstAt(parse, s, keys, policy, i)) <==> Reads(parse, s, keys[0], policy))
    ensures !Installs(s, keys[0]) ==> ((exists i :: FirstAt(parse, s, keys, policy, i)) <==> exists i :: FirstAt(parse, s, keys[1..], policy, i))
  {
    hide Installs, Reads;
    var rest := keys[1..];
    if Installs(s, keys[0]) && Reads(parse, s, keys[0], policy) {
      assert FirstAt(parse, s, keys, policy, 0);
    }
    if i :| FirstAt(parse, s, keys, policy, i) && !Installs(s, keys[0]) {
      assert keys[i] == rest[i - 1] && forall j :: 0 <= j < i - 1 ==> rest[j] == keys[j + 1];
      assert FirstAt(parse, s, rest, policy, i - 1);
    }
    if i :| FirstAt(parse, s, rest, policy, i) && !Installs(s, keys[0]) {
      assert keys[i + 1] == rest[i] && forall j :: 0 < j < i + 1 ==> keys[j] == rest[j - 1];
      assert FirstAt(parse, s, keys, policy, i + 1);
    }
  }

  /** The policy that governs is the one the first installing node defines; there is none exactly when that node defines none. */
  lemma PolicyInForce(parse: Parser, s: Objects, policy: Value)
    ensures PolicyOf(parse, s) == Ok(policy) <==> exists k :: InForce(parse, s, k, policy)
  {
    var keys := InOrder(s.Keys);
    FirstPolicyIs(parse, s, keys, policy);
    assert PolicyOf(parse, s) == FirstPolicy(parse, s, keys);
    InstallsLive(s);
    hide *;
    if k :| InForce(parse, s, k, policy) {
      var i := LeastIsFirst(parse, s, k, policy);
    }
    if i :| FirstAt(parse, s, keys, policy, i) {
      FirstIsLeast(parse, s, i, policy);
    }
  }

  lemma LeastIsFirst(parse: Parser, s: Objects, k: Key, policy: Value) returns (i: int)
    requires InForce(parse, s, k, policy)
    ensures FirstAt(parse, s, InOrder(s.Keys), policy, i)
  {
    InstallsLive(s);
    hide Installs, Before, Reads;
    var keys := InOrder(s.Keys);
    hide InOrder;
    i :| 0 <= i < |keys| && keys[i] == k;
    forall j | 0 <= j < i ensures !Installs(s, keys[j]) {
      NotBoth(keys[i], keys[j]);
    }
  }

  lemma FirstIsLeast(parse: Parser, s: Objects, i: int, policy: Value)
    requires FirstAt(parse, s, InOrder(s.Keys), policy, i)
    ensures InForce(parse, s, InOrder(s.Keys)[i], policy)
  {
    InstallsLive(s);
    hide Installs, Before, Reads;
    var keys := InOrder(s.Keys);
    hide InOrder;
    forall k | Installs(s, k) ensures k == keys[i] || Before(keys[i], k) {
      var j :| 0 <= j < |keys| && keys[j] == k;
    }
  }

  lemma InstallsLive(s: Objects)
    ensures forall k :: Installs(s, k) ==> k in s
  {
  }

  lemma NotBoth(a: Key, b: Key)
    ensures !(Before(a, b) && Before(b, a)) && !Before(a, a)
  {
    BeforeIsOrder();
    hide Before;
  }

  // ---------------------------------------------------------------- a compiled genesis

  lemma ElementInstalls(sha: Sha, show: Printer, id: string, e: Element, s: Objects)
    ensures Installs(s[("node", id) := NewObject(sha, NodePayload(show, id, e))], ("node", id)) <==> e.Policy?
  {
    var s' := s[("node", id) := NewObject(sha, NodePayload(show, id, e))];
    assert GetStr(s'[("node", id)].content, "type") == Some(ElementType(e) + "@1");
    hide NodePayload, NewObject;
    BareType(e);
    hide ElementType;
  }

  lemma BareType(e: Element)
    ensures Bare(ElementType(e) + "@1") == "meta/Policy" <==> e.Policy?
  {
    assert |"meta/Policy"| == 11 && |"meta/Struct"| == 11 && "meta/Policy"[5] == 'P' && "meta/Struct"[5] == 'S';
    var t := ElementType(e);
    assert '@' !in t by {
      hide Bare;
      assert '@' !in "meta/Policy" && '@' !in "meta/Struct" && '@' !in "meta/EntityType" && '@' !in "meta/EdgeType";
      assert '@' !in "meta/ValidationRule" && '@' !in "meta/TaxonomyTerm";
    }
    BareVersioned(t);
    hide Bare;
  }

  lemma OthersStay(s: Objects, k: Key, o: Obj, j: Key)
    requires j != k
    ensures Installs(s[k := o], j) <==> Installs(s, j)
  {
    hide Bare, GetStr;
  }

  lemma {:induction false} NoneInstalled(sha: Sha, show: Printer, mint: Mint, es: seq<Element>)
    requires forall e :: e in es ==> !e.Policy?
    ensures forall k :: !Installs(Installed(sha, show, mint, es), k)
  {
    hide Installs, NewObject, NodePayload;
    if es == [] {
      NothingInstalls();
    } else {
      var n := |es| - 1;
      var before := Installed(sha, show, mint, es[..n]);
      NoneInstalled(sha, show, mint, es[..n]);
      InstalledLast(sha, show, mint, es);
      assert es[n] in es;
      ElementInstalls(sha, show, mint(n), es[n], before);
      forall k | k != ("node", mint(n)) ensures !Installs(Installed(sha, show, mint, es), k) {
        OthersStay(before, ("node", mint(n)), NewObject(sha, NodePayload(show, mint(n), es[n])), k);
      }
    }
  }

  lemma NothingInstalls()
    ensures forall k :: !Installs(map[], k)
  {
  }

  /** Where only one node installs a policy, that policy is in force if it reads at all. */
  lemma OneInstalls(parse: Parser, s: Objects, k: Key, text: string, policy: Value)
    requires Installs(s, k) && forall j :: Installs(s, j) ==> j == k
    requires GetStr(AttributesOf(s[k].content), "definition") == Some(text)
    ensures (exists j :: InForce(parse, s, j, policy)) <==> parse(text) == Some(policy)
  {
    InstallsLive(s);
    hide Installs, AttributesOf, GetStr, Before;
    assert parse(text) == Some(policy) ==> InForce(parse, s, k, policy);
  }

  lemma PolicyText(sha: Sha, show: Printer, id: string, policy: Value)
    ensures var o := NewObject(sha, NodePayload(show, id, Policy(GetStr(policy, "policy").GetOr("policy"), policy)));
            GetStr(AttributesOf(o.content), "definition") == Some(show(policy))
  {
    hide Model.RevisionHash;
  }

  /** Some node installs a policy, no other does, and it defines the policy that prints as this; or no node does. */
  ghost predicate OnlyInstalls(s: Objects, k: Key, text: Option<string>) {
    match text
    case None => forall j :: !Installs(s, j)
    case Some(t) => Installs(s, k) && (forall j :: Installs(s, j) ==> j == k) && GetStr(AttributesOf(s[k].content), "definition") == Some(t)
  }

  /** An operation that creates something other than a policy, as the genesis creates its owner after the schema. */
  ghost predicate CreatesOther(op: Value) {
    exists payload :: op == Map(map["create" := payload]) && !(GetStr(payload, "type").Some? && Bare(GetStr(payload, "type").value) == "meta/Policy")
  }

  lemma CompiledInstallsOnly(sha: Sha, show: Printer, mint: Mint, docs: seq<Named>, policy: Option<Value>) returns (k: Key)
    ensures OnlyInstalls(Installed(sha, show, mint, Elements(docs, policy)), k, if policy.Some? then Some(show(policy.value)) else None)
  {
    k := ("node", "");
    NoPolicyInDocs(docs);
    hide NewObject, NodePayload, DocsElements, Installs;
    var es := Elements(docs, policy);
    if policy.Some? {
      var n := |es| - 1;
      assert es[..n] == DocsElements(docs) && es[n] == Policy(GetStr(policy.value, "policy").GetOr("policy"), policy.value);
      NoneInstalled(sha, show, mint, es[..n]);
      InstalledLast(sha, show, mint, es);
      hide Installed;
      k := ("node", mint(n));
      var before, o := Installed(sha, show, mint, es[..n]), NewObject(sha, NodePayload(show, mint(n), es[n]));
      ElementInstalls(sha, show, mint(n), es[n], before);
      forall j | j != k ensures !Installs(Installed(sha, show, mint, es), j) {
        OthersStay(before, k, o, j);
      }
      PolicyText(sha, show, mint(n), policy.value);
    } else {
      assert es == DocsElements(docs);
      NoneInstalled(sha, show, mint, es);
    }
  }

  lemma CreateAdds(sha: Sha, reg: Registry, w: Working, op: Value) returns (key: Key, o: Obj)
    requires CreatesOther(op) && ApplyOp(sha, reg, w, op).Ok?
    ensures key !in w.objects && ApplyOp(sha, reg, w, op).value.objects == w.objects[key := o]
    ensures !(GetStr(o.content, "type").Some? && Bare(GetStr(o.content, "type").value) == "meta/Policy")
  {
    hide ApplyOp, About, HashValue, Bare, Remove, GetStr, ValidatePayload;
    var payload :| op == Map(map["create" := payload]) && !(GetStr(payload, "type").Some? && Bare(GetStr(payload, "type").value) == "meta/Policy");
    var verb, same;
    verb, same, key := AcceptedNames(sha, reg, w, op);
    OneKey("create", payload, verb, same);
    CreateMeets(sha, reg, w, payload, key);
    o := Obj(payload, HashValue(sha, "object", Remove(payload, "rev")), false, false);
  }

  lemma OneKey(a: string, x: Value, b: string, y: Value)
    requires map[a := x] == map[b := y]
    ensures a == b && x == y
  {
    assert a in map[b := y] && map[b := y][a] == x;
  }

  lemma CreateKeepsOnly(sha: Sha, reg: Registry, w: Working, op: Value, k: Key, text: Option<string>)
    requires OnlyInstalls(w.objects, k, text) && CreatesOther(op) && ApplyOp(sha, reg, w, op).Ok?
    ensures OnlyInstalls(ApplyOp(sha, reg, w, op).value.objects, k, text)
  {
    InstallsLive(w.objects);
    hide ApplyOp, CreatesOther, Bare, AttributesOf, GetStr;
    var key, o := CreateAdds(sha, reg, w, op);
    var s := w.objects[key := o];
    assert !Installs(s, key);
    hide Installs;
    forall j | j != key ensures Installs(s, j) <==> Installs(w.objects, j) {
      OthersStay(w.objects, key, o, j);
    }
  }

  lemma {:induction false} CreatesKeepOnly(sha: Sha, reg: Registry, w: Working, ops: seq<Value>, k: Key, text: Option<string>)
    requires OnlyInstalls(w.objects, k, text) && (forall op :: op in ops ==> CreatesOther(op)) && ApplyOps(sha, reg, w, ops).Ok?
    ensures OnlyInstalls(ApplyOps(sha, reg, w, ops).value.objects, k, text)
    decreases |ops|
  {
    hide ApplyOp, OnlyInstalls, CreatesOther;
    if ops != [] {
      CreateKeepsOnly(sha, reg, w, ops[0], k, text);
      CreatesKeepOnly(sha, reg, ApplyOp(sha, reg, w, ops[0]).value, ops[1..], k, text);
    }
  }

  lemma OnlyGoverns(parse: Parser, s: Objects, k: Key, text: Option<string>, p: Value)
    requires OnlyInstalls(s, k, text)
    ensures PolicyOf(parse, s) == Ok(p) <==> text.Some? && parse(text.value) == Some(p)
  {
    PolicyInForce(parse, s, p);
    hide PolicyOf, Installs, AttributesOf, GetStr, Reads, Before;
    if text.Some? {
      OneInstalls(parse, s, k, text.value, p);
    }
  }

  /**
   * A genesis compiled with a policy, once accepted, is governed by what that policy reads back as, and by
   * the policy itself when printing loses nothing. Compiled without one, it is governed by none. Whatever
   * else it goes on to create, the owner for one, makes no difference.
   */
  lemma GenesisGoverns(sha: Sha, reg: Registry, parse: Parser, show: Printer, mint: Mint, docs: seq<Named>, policy: Option<Value>, more: seq<Value>,
                       cs: Value, s: Objects, p: Value)
    requires CheckHeader(sha, cs) == Ok(CreateNodes(show, mint, Elements(docs, policy)) + more)
    requires forall op :: op in more ==> CreatesOther(op)
    requires Apply(sha, reg, map[], cs) == Ok(s)
    ensures PolicyOf(parse, s) == Ok(p) <==> policy.Some? && parse(show(policy.value)) == Some(p)
  {
    var start, es := Working(map[], [], []), Elements(docs, policy);
    var ops := CreateNodes(show, mint, es);
    var k := CompiledInstallsOnly(sha, show, mint, docs, policy);
    hide CheckHeader, CreateNodes, Elements, OnlyInstalls, NoDangling, RulesHold, ApplyOps, Installed, PolicyOf, CreatesOther;
    assert ApplyOps(sha, reg, start, ops + more).Ok? && s == ApplyOps(sha, reg, start, ops + more).value.objects;
    ApplyOpsAppend(sha, reg, start, ops, more);
    InstalledByFold(sha, reg, start, show, mint, es);
    var w := ApplyOps(sha, reg, start, ops).value;
    assert w.objects == Installed(sha, show, mint, es);
    var text := if policy.Some? then Some(show(policy.value)) else None;
    CreatesKeepOnly(sha, reg, w, more, k, text);
    OnlyGoverns(parse, s, k, text, p);
  }

  // ---------------------------------------------------------------- projecting the policy

  /** The keys that install a policy, in the order given. */
  ghost function Installing(s: Objects, keys: seq<Key>): seq<Key> {
    if keys == [] then [] else (if Installs(s, keys[0]) then [keys[0]] else []) + Installing(s, keys[1..])
  }

  lemma {:induction false} InstallingIs(s: Objects, keys: seq<Key>)
    ensures forall k :: k in Installing(s, keys) <==> k in keys && Installs(s, k)
  {
    hide Installs;
    if keys == [] {
    } else {
      InstallingIs(s, keys[1..]);
      assert keys == [keys[0]] + keys[1..];
    }
  }

  /** The nodes listed are the keys that install a policy, each with the text of its definition. */
  ghost predicate Lists(s: Objects, policies: seq<PolicyNode>, keys: seq<Key>) {
    && |policies| == |keys|
    && forall i :: 0 <= i < |keys| ==> keys[i] in s && GetStr(AttributesOf(s[keys[i]].content), "definition") == Some(policies[i].2)
  }

  lemma ProjectsOne(parse: Parser, s: Objects, k: Key, p: Projected)
    requires k in s && ProjectNode(parse, s, k, p).Ok?
    ensures var q := ProjectNode(parse, s, k, p).value;
            && (!Installs(s, k) ==> q.policies == p.policies)
            && (Installs(s, k) ==> |q.policies| == |p.policies| + 1 && q.policies[..|p.policies|] == p.policies
                                   && GetStr(AttributesOf(s[k].content), "definition") == Some(q.policies[|p.policies|].2))
  {
    InstallsIs(s, k);
    assert IsPolicyNode(s, k) ==> IsMetaNode(s, k) by {
      hide Bare;
      assert "meta/Policy" in META_TYPES;
    }
    hide Record, Bare, Installs, META_TYPES;
  }

  lemma {:induction false} ProjectsAll(parse: Parser, s: Objects, keys: seq<Key>, p: Projected, before: seq<Key>)
    requires (forall k :: k in keys ==> k in s) && ProjectNodes(parse, s, keys, p).Ok?
    requires Lists(s, p.policies, before)
    ensures Lists(s, ProjectNodes(parse, s, keys, p).value.policies, before + Installing(s, keys))
  {
    hide ProjectNode, Installs, AttributesOf, GetStr;
    if keys == [] {
      assert before + [] == before;
    } else {
      ProjectsOne(parse, s, keys[0], p);
      var q, more := ProjectNode(parse, s, keys[0], p).value, if Installs(s, keys[0]) then before + [keys[0]] else before;
      assert more + Installing(s, keys[1..]) == before + Installing(s, keys);
      ProjectsAll(parse, s, keys[1..], q, more);
    }
  }

  lemma OntologyNamed(g: Gathered, pkg: string)
    ensures GetStr(OntologyDoc(g, pkg), "ontology") == Some(pkg)
  {
    hide StringsInOrder, ImportDocs;
    assert "imports" != "ontology" && "entity_types" != "ontology" && "edge_types" != "ontology" && "structs" != "ontology" && "validation_rules" != "ontology";
  }

  lemma OntologiesNamed(g: Gathered, d: Named)
    requires d in OntologyDocs(g)
    ensures GetStr(d.1, "ontology") == Some(d.0)
  {
    hide OntologyDoc, StringsInOrder, PackageNames, GetStr, StringLess;
    var i :| 0 <= i < |OntologyDocs(g)| && OntologyDocs(g)[i] == d;
    OntologyNamed(g, d.0);
  }

  lemma TaxonomiesNamed(g: Gathered, d: Named)
    requires d in TaxonomyDocs(g)
    ensures d.0 != "policy"
  {
    assert |"-taxonomy"| == 9 && |"policy"| == 6;
    hide TaxonomyDoc, StringsInOrder, StringLess;
    var i :| 0 <= i < |TaxonomyDocs(g)| && TaxonomyDocs(g)[i] == d;
    assert |d.0| >= 9;
  }

  /**
   * A state projects only if at most one of its nodes installs a policy. The policy document is then what
   * that node's definition reads as, and it is there exactly when the node is; an ontology may share its name.
   */
  lemma ProjectsPolicy(parse: Parser, s: Objects, docs: seq<Named>, v: Value)
    requires ProjectSchema(parse, s) == Ok(docs)
    ensures forall j, k :: Installs(s, j) && Installs(s, k) ==> j == k
    ensures forall k :: Installs(s, k) ==> exists w :: Reads(parse, s, k, w) && ("policy", w) in docs
    ensures ("policy", v) in docs && GetStr(v, "ontology") != Some("policy") ==> exists k :: Installs(s, k) && Reads(parse, s, k, v)
  {
    var p, policy := ProjectionParts(parse, s, docs);
    var found := PoliciesFound(parse, s);
    hide *;
    OnePolicy(parse, s, found, p.policies, policy);
    if ("policy", v) in OntologyDocs(p.g) {
      OntologiesNamed(p.g, ("policy", v));
    }
    if ("policy", v) in TaxonomyDocs(p.g) {
      TaxonomiesNamed(p.g, ("policy", v));
    }
  }

  /** At most one policy is listed, and it becomes the policy document. */
  ghost predicate Filed(parse: Parser, policies: seq<PolicyNode>, policy: seq<Named>) {
    && |policies| <= 1 && |policy| == |policies|
    && (|policies| == 1 ==> parse(policies[0].2).Some? && policy[0] == ("policy", parse(policies[0].2).value))
  }

  lemma ProjectionParts(parse: Parser, s: Objects, docs: seq<Named>) returns (p: Projected, policy: seq<Named>)
    requires ProjectSchema(parse, s) == Ok(docs)
    ensures ProjectNodes(parse, s, InOrder(s.Keys), Projected(NOTHING, [])) == Ok(p)
    ensures Filed(parse, p.policies, policy)
    ensures forall d :: d in docs <==> d in OntologyDocs(p.g) || d in TaxonomyDocs(p.g) || d in policy
    ensures docs == Sorted(DocLess, OntologyDocs(p.g) + TaxonomyDocs(p.g) + policy)
  {
    hide OntologyDocs, TaxonomyDocs, ProjectNodes, Sorted, InOrder, DocLess;
    p := ProjectNodes(parse, s, InOrder(s.Keys), Projected(NOTHING, [])).value;
    policy := PolicyDocs(parse, p.policies).value;
    assert docs == Sorted(DocLess, OntologyDocs(p.g) + TaxonomyDocs(p.g) + policy);
  }

  lemma PoliciesFound(parse: Parser, s: Objects) returns (found: seq<Key>)
    requires ProjectNodes(parse, s, InOrder(s.Keys), Projected(NOTHING, [])).Ok?
    ensures Lists(s, ProjectNodes(parse, s, InOrder(s.Keys), Projected(NOTHING, [])).value.policies, found)
    ensures forall k :: k in found <==> Installs(s, k)
  {
    var keys := InOrder(s.Keys);
    InstallsLive(s);
    hide ProjectNodes, Installs, AttributesOf, GetStr, InOrder;
    ProjectsAll(parse, s, keys, Projected(NOTHING, []), []);
    found := Installing(s, keys);
    assert [] + found == found;
    InstallingIs(s, keys);
  }

  lemma OnePolicy(parse: Parser, s: Objects, found: seq<Key>, policies: seq<PolicyNode>, policy: seq<Named>)
    requires Lists(s, policies, found) && forall k :: k in found <==> Installs(s, k)
    requires Filed(parse, policies, policy)
    ensures forall j, k :: Installs(s, j) && Installs(s, k) ==> j == k
    ensures forall k :: Installs(s, k) ==> exists w :: Reads(parse, s, k, w) && ("policy", w) in policy
    ensures forall v :: ("policy", v) in policy ==> exists k :: Installs(s, k) && Reads(parse, s, k, v)
  {
    hide Installs, AttributesOf, GetStr;
    if found != [] {
      var w := parse(policies[0].2).value;
      assert Reads(parse, s, found[0], w) && policy[0] == ("policy", w) && ("policy", w) in policy;
      assert found[0] in found && forall k :: k in found ==> k == found[0];
      assert Installs(s, found[0]);
    }
  }

  // ---------------------------------------------------------------- projecting terms

  /** What a term node says of its term: name, parents, and the status when it has one. */
  ghost predicate SaysTerm(s: Objects, k: Key, tax: string, term: Value) {
    && OfType(s, k, "meta/TaxonomyTerm") && AttrStr(s, k, "taxonomy") == Some(tax) && AttrStr(s, k, "name").Some?
    && var parents := match GetSeq(Get(s[k].content, "attributes").GetOr(Null), "parents") case Some(ps) => ps case None => [];
       var m := map["name" := Str(AttrStr(s, k, "name").value), "parents" := Seq(parents)];
       term == match AttrStr(s, k, "status") case Some(status) => Map(m["status" := Str(status)]) case None => Map(m)
  }

  ghost predicate Gathers(g: Gathered, tax: string, term: Value) {
    tax in g.terms && term in g.terms[tax]
  }

  lemma PushAdds(terms: map<string, seq<Value>>, tax: string, v: Value, x: string, term: Value)
    ensures var more := Push(terms, tax, v);
            (x in more && term in more[x]) <==> (x in terms && term in terms[x]) || (x == tax && term == v)
  {
  }

  lemma ProjectTerm(parse: Parser, s: Objects, k: Key, p: Projected, tax: string, term: Value)
    requires k in s && ProjectNode(parse, s, k, p).Ok?
    ensures Gathers(ProjectNode(parse, s, k, p).value.g, tax, term) <==> Gathers(p.g, tax, term) || SaysTerm(s, k, tax, term)
  {
    var attributes := AttributesOf(s[k].content);
    Derivation.Names();
    if IsMetaNode(s, k) && Bare(LiveType(s, k).value) != "meta/Policy" {
      var t := Bare(LiveType(s, k).value);
      RecordPushes(parse, p.g, t, attributes);
      assert forall u :: OfType(s, k, u) <==> u == t;
      hide Record, Bare, META_TYPES, OfType;
      if t == "meta/TaxonomyTerm" {
        RecordWorks(parse, p.g, t, attributes);
        var v := TermValue(GetStr(attributes, "name").value, GetSeq(attributes, "parents").GetOr([]), GetStr(attributes, "status"));
        PushAdds(p.g.terms, GetStr(attributes, "taxonomy").value, v, tax, term);
        hide Push;
      }
    } else {
      hide Record, Bare;
      assert !OfType(s, k, "meta/TaxonomyTerm");
    }
  }

  lemma {:induction false} ProjectTerms(parse: Parser, s: Objects, keys: seq<Key>, p: Projected, tax: string, term: Value)
    requires (forall k :: k in keys ==> k in s) && ProjectNodes(parse, s, keys, p).Ok?
    ensures Gathers(ProjectNodes(parse, s, keys, p).value.g, tax, term) <==> Gathers(p.g, tax, term) || exists k :: k in keys && SaysTerm(s, k, tax, term)
  {
    hide ProjectNode, SaysTerm, Gathers;
    if keys == [] {
    } else {
      ProjectTerm(parse, s, keys[0], p, tax, term);
      ProjectTerms(parse, s, keys[1..], ProjectNode(parse, s, keys[0], p).value, tax, term);
      assert keys == [keys[0]] + keys[1..];
    }
  }

  /** A taxonomy document of that name with the term among its terms. */
  ghost predicate ListsTerm(d: Named, tax: string, term: Value) {
    && d.0 == tax + "-taxonomy" && GetStr(d.1, "taxonomy") == Some(tax) && GetStr(d.1, "ontology").None?
    && GetSeq(d.1, "terms").Some? && term in GetSeq(d.1, "terms").value
  }

  lemma TaxonomyReads(g: Gathered, tax: string)
    requires tax in g.terms
    ensures var d := TaxonomyDoc(g, tax);
            && GetStr(d, "taxonomy") == Some(tax) && GetStr(d, "ontology").None?
            && GetSeq(d, "terms").Some? && forall term :: term in GetSeq(d, "terms").value <==> term in g.terms[tax]
  {
    hide NameLess;
    assert "ontology" != "taxonomy" && |"terms"| == 5 && |"version"| == 7 && |"ontology"| == 8;
  }

  lemma TaxonomyFiled(g: Gathered, tax: string, term: Value)
    ensures Gathers(g, tax, term) <==> exists d :: d in TaxonomyDocs(g) && ListsTerm(d, tax, term)
  {
    var names := StringsInOrder(g.terms.Keys);
    hide StringsInOrder, TaxonomyDoc, StringLess;
    forall i | 0 <= i < |names| ensures names[i] in g.terms && TaxonomyDocs(g)[i] == (names[i] + "-taxonomy", TaxonomyDoc(g, names[i])) {
      assert names[i] in names;
    }
    if Gathers(g, tax, term) {
      var i :| 0 <= i < |names| && names[i] == tax;
      TaxonomyReads(g, tax);
      assert TaxonomyDocs(g)[i] in TaxonomyDocs(g);
      assert ListsTerm(TaxonomyDocs(g)[i], tax, term);
    }
    if d :| d in TaxonomyDocs(g) && ListsTerm(d, tax, term) {
      var i :| 0 <= i < |TaxonomyDocs(g)| && TaxonomyDocs(g)[i] == d;
      TaxonomyReads(g, names[i]);
    }
  }

  lemma NotPolicy(tax: string)
    ensures tax + "-taxonomy" != "policy"
  {
    assert |"-taxonomy"| == 9 && |"policy"| == 6;
  }

  lemma SaidLive(s: Objects, tax: string, term: Value)
    ensures forall k :: SaysTerm(s, k, tax, term) ==> k in InOrder(s.Keys)
  {
    hide AttrStr, InOrder;
  }

  /** The taxonomy documents of a state list exactly the terms its live nodes say, statuses included. */
  lemma ProjectsTerms(parse: Parser, s: Objects, docs: seq<Named>, tax: string, term: Value)
    requires ProjectSchema(parse, s) == Ok(docs)
    ensures (exists k :: SaysTerm(s, k, tax, term)) <==> exists d :: d in docs && ListsTerm(d, tax, term)
  {
    hide *;
    var p, policy := ProjectionParts(parse, s, docs);
    ProjectTerms(parse, s, InOrder(s.Keys), Projected(NOTHING, []), tax, term);
    SaidLive(s, tax, term);
    NothingGathers(tax, term);
    TaxonomyFiled(p.g, tax, term);
    forall d | d in docs && ListsTerm(d, tax, term) ensures d in TaxonomyDocs(p.g) {
      OnlyTaxonomies(parse, p, policy, d, tax, term);
    }
  }

  lemma NothingGathers(tax: string, term: Value)
    ensures !Gathers(NOTHING, tax, term)
  {
  }

  lemma OnlyTaxonomies(parse: Parser, p: Projected, policy: seq<Named>, d: Named, tax: string, term: Value)
    requires Filed(parse, p.policies, policy) && (d in OntologyDocs(p.g) || d in TaxonomyDocs(p.g) || d in policy) && ListsTerm(d, tax, term)
    ensures d in TaxonomyDocs(p.g)
  {
    hide OntologyDocs, TaxonomyDocs;
    NotPolicy(tax);
    if d in OntologyDocs(p.g) {
      OntologiesNamed(p.g, d);
    }
  }

  /** Ontologies first, then taxonomies, the policy last. */
  ghost predicate PlacedAt(name: string, place: nat) {
    if name == "policy" then place == 2
    else if exists tax :: name == tax + "-taxonomy" then place == 1
    else place == 0
  }

  lemma RankIs(name: string)
    ensures PlacedAt(name, Rank(name))
  {
    assert |"-taxonomy"| == 9;
    if |name| >= 9 && name[|name| - 9..] == "-taxonomy" {
      assert name == name[..|name| - 9] + "-taxonomy";
    }
    forall tax | name == tax + "-taxonomy" ensures |name| >= 9 && name[|name| - 9..] == "-taxonomy" {
    }
  }

  lemma DocsRank()
    ensures Ranks(DocLess)
  {
    StringLessIsOrder();
    hide StringLess, Rank;
    forall x: Named, y: Named, z: Named | DocLess(x, z) ensures DocLess(x, y) || DocLess(y, z) {
    }
  }

  /** Projected documents come in order of place, and of name where that is the same. */
  lemma ProjectionOrder(parse: Parser, s: Objects, docs: seq<Named>, i: nat, j: nat)
    requires ProjectSchema(parse, s) == Ok(docs) && i < j < |docs|
    ensures forall m, n :: PlacedAt(docs[i].0, m) && PlacedAt(docs[j].0, n) ==>
              m < n || (m == n && (docs[i].0 == docs[j].0 || StringLess(docs[i].0, docs[j].0)))
  {
    var p, policy := ProjectionParts(parse, s, docs);
    DocsRank();
    SortedInOrder(DocLess, OntologyDocs(p.g) + TaxonomyDocs(p.g) + policy);
    RankIs(docs[i].0);
    RankIs(docs[j].0);
    StringLessIsOrder();
    hide ProjectSchema, StringLess, Rank, Sorted, OntologyDocs, TaxonomyDocs;
    assert !DocLess(docs[j], docs[i]);
    hide DocLess;
    assert forall m :: PlacedAt(docs[i].0, m) ==> m == Rank(docs[i].0);
    assert forall n :: PlacedAt(docs[j].0, n) ==> n == Rank(docs[j].0);
  }

  lemma {:induction false} NamesOf(imports: seq<Value>, name: string)
    ensures name in ImportNames(imports) <==> exists i :: i in imports && GetStr(i, "ontology") == Some(name)
  {
    if imports == [] {
    } else {
      NamesOf(imports[1..], name);
      assert imports == [imports[0]] + imports[1..];
      hide GetStr;
    }
  }

  /** The packages an ontology imports are the names its import entries give. */
  lemma ImportedNames(doc: Value, name: string)
    ensures name in DocImports(doc) <==>
            GetSeq(doc, "imports").Some? && exists i :: i in GetSeq(doc, "imports").value && GetStr(i, "ontology") == Some(name)
  {
    if GetSeq(doc, "imports").Some? {
      NamesOf(GetSeq(doc, "imports").value, name);
      hide ImportNames, GetStr;
    }
  }
}
