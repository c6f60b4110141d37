/**
 * When a payload is valid (crates/allod-core/src/fold.rs:297-425): what a node, an edge, a classification and
 * a document need, and which values an attribute type takes.
 */
module Payloads {
  import opened Text
  import opened Values
  import opened Objects
  import opened Registries
  import opened Fold
  import opened References

  // ---------------------------------------------------------------- values

  /** A list type asks its items to be of the item type; a value that is no list it does not look at. */
  lemma ListTakes(reg: Registry, texpr: string, inner: string, v: Value)
    requires Trim(texpr) == "list<" + inner + ">"
    ensures ValidValue(reg, texpr, v) <==> (v.Seq? ==> forall x :: x in v.items ==> ValidValue(reg, inner, x))
  {
    var t := Trim(texpr);
    hide Trim;
    assert t[5..] == inner + ">" && (inner + ">")[..|inner|] == inner;
    assert Between(t, "list<", ">") == Some(inner);
  }

  /** An enumeration takes the strings it lists, blanks around them not counted. */
  lemma EnumTakes(reg: Registry, texpr: string, inner: string, v: Value)
    requires Trim(texpr) == "enum<" + inner + ">"
    ensures ValidValue(reg, texpr, v) <==> v.Str? && exists part :: PartOf(inner, '|', part) && Trim(part) == v.s
  {
    EnumParts(inner, if v.Str? then v.s else "");
    var t := Trim(texpr);
    hide Trim, PartOf, Split;
    assert t[5..] == inner + ">" && (inner + ">")[..|inner|] == inner;
    assert t[0] == 'e' && "list<"[0] == 'l';
    assert Between(t, "list<", ">") == None && Between(t, "enum<", ">") == Some(inner);
  }

  lemma EnumParts(inner: string, x: string)
    ensures x in TrimAll(Split(inner, '|')) <==> exists part :: PartOf(inner, '|', part) && Trim(part) == x
  {
    var parts := Split(inner, '|');
    forall part ensures part in parts <==> PartOf(inner, '|', part) {
      SplitIs(inner, '|', part);
    }
    hide Split, PartOf, Trim;
    if x in TrimAll(parts) {
      var i :| 0 <= i < |parts| && TrimAll(parts)[i] == x;
      assert parts[i] in parts;
    }
    if part :| PartOf(inner, '|', part) && Trim(part) == x {
      var i :| 0 <= i < |parts| && parts[i] == part;
      assert TrimAll(parts)[i] == x;
    }
  }

  /** A type expression that is neither a list nor an enumeration. */
  ghost predicate Named(t: string) {
    (forall inner :: t != "list<" + inner + ">") && forall inner :: t != "enum<" + inner + ">"
  }

  lemma NamedIs(t: string)
    requires Named(t)
    ensures Between(t, "list<", ">") == None && Between(t, "enum<", ">") == None
  {
    forall prefix | prefix == "list<" || prefix == "enum<" ensures Between(t, prefix, ">").Some? ==> t == prefix + Between(t, prefix, ">").value + ">" {
      BetweenJoins(t, prefix);
    }
  }

  lemma BetweenJoins(t: string, prefix: string)
    ensures Between(t, prefix, ">").Some? ==> t == prefix + Between(t, prefix, ">").value + ">"
  {
    if Between(t, prefix, ">").Some? {
      var rest := StripPrefix(t, prefix).value;
      assert rest == rest[..|rest| - 1] + ">";
    }
  }

  /** One field of a struct: given when it is required, and of its type when it is given. */
  ghost predicate FieldTakes(reg: Registry, field: string, fdef: Value, v: Value) {
    && (Get(fdef, "required") == Some(Bool(true)) ==> v.Map? && field in v.m)
    && (v.Map? && field in v.m && GetStr(fdef, "type").Some? ==> ValidValue(reg, GetStr(fdef, "type").value, v.m[field]))
  }

  /** A struct asks for its fields; fields it does not declare it does not look at. Any other name takes every value. */
  lemma StructTakes(reg: Registry, texpr: string, v: Value)
    requires Named(Trim(texpr))
    ensures ResolveStruct(reg, Trim(texpr)).None? || !ResolveStruct(reg, Trim(texpr)).value.Map? ==> ValidValue(reg, texpr, v)
    ensures forall fields :: ResolveStruct(reg, Trim(texpr)) == Some(Map(fields)) ==>
              (ValidValue(reg, texpr, v) <==> forall f :: f in fields ==> FieldTakes(reg, f, fields[f], v))
  {
    NamedIs(Trim(texpr));
    hide Trim, ResolveStruct, Between, Named, GetStr;
  }

  // ---------------------------------------------------------------- nodes

  /** The payload gives each required attribute and no attribute that is undeclared or not of its type. */
  ghost predicate NodeFits(reg: Registry, payload: Value) {
    exists tref, t :: GetStr(payload, "type") == Some(tref) && ResolveType(reg, tref, None) == Some(t) && Given(reg, CollectedAttrs(reg, t.pkg, t.name), payload)
  }

  ghost predicate Gives(payload: Value, a: string) {
    Get(payload, "attributes").Some? && Get(Get(payload, "attributes").value, a).Some?
  }

  ghost predicate Given(reg: Registry, attrs: map<string, Value>, payload: Value) {
    && (forall a :: a in attrs && Get(attrs[a], "required") == Some(Bool(true)) ==> Gives(payload, a))
    && (forall a :: Gives(payload, a) ==>
          && a in attrs
          && (GetStr(attrs[a], "type").Some? ==> ValidValue(reg, GetStr(attrs[a], "type").value, Get(Get(payload, "attributes").value, a).value)))
  }

  lemma NodeIs(reg: Registry, payload: Value)
    ensures ValidateNode(reg, payload).Ok? <==> NodeFits(reg, payload)
  {
    hide ResolveType, CollectedAttrs, ValidValue;
    if GetStr(payload, "type").Some? && ResolveType(reg, GetStr(payload, "type").value, None).Some? {
      var t := ResolveType(reg, GetStr(payload, "type").value, None).value;
      GivenIs(reg, CollectedAttrs(reg, t.pkg, t.name), payload);
      hide Given, IsRequired, AttributesOf, Get;
    }
  }

  lemma GivenIs(reg: Registry, attrs: map<string, Value>, payload: Value)
    ensures Given(reg, attrs, payload) <==>
            && (forall a :: a in attrs && IsRequired(attrs[a]) ==> Get(AttributesOf(payload), a).Some?)
            && (AttributesOf(payload).Map? ==> forall a :: a in AttributesOf(payload).m ==>
                  a in attrs && (GetStr(attrs[a], "type").Some? ==> ValidValue(reg, GetStr(attrs[a], "type").value, AttributesOf(payload).m[a])))
  {
    hide ValidValue, GetStr;
    forall a ensures Gives(payload, a) <==> Get(AttributesOf(payload), a).Some? {
    }
  }

  // ---------------------------------------------------------------- edges

  /** The edge's end refers to a live node of a type one of the allowed ones is satisfied by, as the edge type's package names them. */
  ghost predicate EndFits(reg: Registry, s: Objects, reference: string, allowed: Value, pkg: string) {
    exists id, a ::
      && reference == "node:" + id && ("node", id) in s && !s[("node", id)].deleted
      && (allowed == Str(a) || (allowed.Seq? && Str(a) in allowed.items))
      && TypeSatisfies(reg, GetStr(s[("node", id)].content, "type").GetOr(""), a, Some(pkg))
  }

  /** Both ends are there: the one it comes from fits the domain, the one it goes to fits the range. */
  ghost predicate EdgeFits(reg: Registry, s: Objects, payload: Value) {
    exists tref, p, name ::
      && GetStr(payload, "type") == Some(tref) && Qualifies(tref, None, p, name) && p in reg.packages && Get(reg.packages[p].edges, name).Some?
      && var def := Get(reg.packages[p].edges, name).value;
         && GetStr(payload, "from").Some? && Get(def, "domain").Some? && EndFits(reg, s, GetStr(payload, "from").value, Get(def, "domain").value, p)
         && GetStr(payload, "to").Some? && Get(def, "range").Some? && EndFits(reg, s, GetStr(payload, "to").value, Get(def, "range").value, p)
  }

  lemma NodeRef(s: Objects, reference: string, id: string)
    requires reference == "node:" + id
    ensures ResolveRef(s, reference) == if ("node", id) in s && !s[("node", id)].deleted then Some(("node", s[("node", id)])) else None
  {
    assert reference == "node" + [':'] + id;
    SplitOnceJoins(reference, "node", id, ':');
    hide SplitOnce;
  }

  lemma SideIs(reg: Registry, s: Objects, payload: Value, def: Value, side: string, allowedKey: string, tref: string, p: string)
    requires PackageIn(tref) == Some(p)
    ensures ValidateSide(reg, s, payload, def, side, allowedKey, tref).Ok? <==>
            GetStr(payload, side).Some? && Get(def, allowedKey).Some? && EndFits(reg, s, GetStr(payload, side).value, Get(def, allowedKey).value, p)
  {
    hide PackageIn, TypeSatisfies;
    if GetStr(payload, side).Some? && Get(def, allowedKey).Some? {
      EndIs(reg, s, GetStr(payload, side).value, Get(def, allowedKey).value, p);
      hide EndFits, SideAllowed, ResolveRef;
    }
  }

  lemma EndIs(reg: Registry, s: Objects, reference: string, allowed: Value, p: string)
    ensures EndFits(reg, s, reference, allowed, p) <==>
            && ResolveRef(s, reference).Some? && ResolveRef(s, reference).value.0 == "node"
            && SideAllowed(reg, GetStr(ResolveRef(s, reference).value.1.content, "type").GetOr(""), allowed, Some(p))
  {
    hide TypeSatisfies, GetStr;
    if ResolveRef(s, reference).Some? && ResolveRef(s, reference).value.0 == "node" {
      var o := ResolveRef(s, reference).value.1;
      Resolves(s, reference, "node", o);
      var id :| reference == "node" + ":" + id && ("node", id) in s && s[("node", id)] == o;
      assert reference == "node:" + id;
      OneId(reference, id);
    }
    forall id | reference == "node:" + id
      ensures ResolveRef(s, reference) == if ("node", id) in s && !s[("node", id)].deleted then Some(("node", s[("node", id)])) else None {
      NodeRef(s, reference, id);
    }
    assert forall a :: a in OneOrMany(allowed) <==> allowed == Str(a) || (allowed.Seq? && Str(a) in allowed.items);
    hide ResolveRef, OneOrMany;
  }

  lemma OneId(reference: string, id: string)
    requires reference == "node:" + id
    ensures forall other :: reference == "node:" + other ==> other == id
  {
    assert id == reference[5..];
    assert forall other :: reference == "node:" + other ==> other == reference[5..];
  }

  lemma EdgeIs(reg: Registry, s: Objects, payload: Value)
    ensures ValidateEdge(reg, s, payload).Ok? <==> EdgeFits(reg, s, payload)
  {
    hide ResolveEdgeType, ValidateSide, EndFits, Qualifies, PackageIn;
    if ValidateEdge(reg, s, payload).Ok? {
      var tref := GetStr(payload, "type").value;
      var def := ResolveEdgeType(reg, tref).value;
      EdgeTypeResolves(reg, tref, def);
      var p, name :| Qualifies(tref, None, p, name) && p in reg.packages && Get(reg.packages[p].edges, name) == Some(def);
      PackageInIs(tref, p);
      SideIs(reg, s, payload, def, "from", "domain", tref, p);
      SideIs(reg, s, payload, def, "to", "range", tref, p);
    }
    if tref, p, name :|
      && GetStr(payload, "type") == Some(tref) && Qualifies(tref, None, p, name) && p in reg.packages && Get(reg.packages[p].edges, name).Some?
      && var def := Get(reg.packages[p].edges, name).value;
         && GetStr(payload, "from").Some? && Get(def, "domain").Some? && EndFits(reg, s, GetStr(payload, "from").value, Get(def, "domain").value, p)
         && GetStr(payload, "to").Some? && Get(def, "range").Some? && EndFits(reg, s, GetStr(payload, "to").value, Get(def, "range").value, p) {
      var def := Get(reg.packages[p].edges, name).value;
      EdgeTypeResolves(reg, tref, def);
      PackageInIs(tref, p);
      SideIs(reg, s, payload, def, "from", "domain", tref, p);
      SideIs(reg, s, payload, def, "to", "range", tref, p);
    }
  }

  // ---------------------------------------------------------------- all kinds

  /** A live object is classified under a term some taxonomy has. */
  ghost predicate ClassificationFits(reg: Registry, s: Objects, payload: Value) {
    && GetStr(payload, "subject").Some? && GetStr(payload, "term").Some?
    && RefersToLive(s, GetStr(payload, "subject").value)
    && exists t :: t in reg.taxonomies && Bare(GetStr(payload, "term").value) in reg.taxonomies[t].terms
  }

  /** The reference is to a live object of some kind. */
  ghost predicate RefersToLive(s: Objects, reference: string) {
    exists kind, id :: reference == kind + ":" + id && ':' !in kind && (kind, id) in s && !s[(kind, id)].deleted
  }

  lemma RefersIs(s: Objects, reference: string)
    ensures RefersToLive(s, reference) <==> ResolveRef(s, reference).Some?
  {
    hide ResolveRef;
    if ResolveRef(s, reference).Some? {
      var (kind, o) := ResolveRef(s, reference).value;
      Resolves(s, reference, kind, o);
    }
    if kind, id :| reference == kind + ":" + id && ':' !in kind && (kind, id) in s && !s[(kind, id)].deleted {
      Resolves(s, reference, kind, s[(kind, id)]);
    }
  }

  lemma ClassificationIs(reg: Registry, s: Objects, payload: Value)
    ensures ValidateClassification(reg, s, payload).Ok? <==> ClassificationFits(reg, s, payload)
  {
    if GetStr(payload, "subject").Some? {
      RefersIs(s, GetStr(payload, "subject").value);
    }
    hide Bare, GetStr, ResolveRef, RefersToLive;
  }

  /** A payload is valid when it has what its kind needs; there are four kinds. */
  lemma PayloadIs(reg: Registry, s: Objects, kind: string, payload: Value)
    ensures ValidatePayload(reg, s, kind, payload).Ok? <==>
            || (kind == "node" && NodeFits(reg, payload))
            || (kind == "edge" && EdgeFits(reg, s, payload))
            || (kind == "classification" && ClassificationFits(reg, s, payload))
            || (kind == "document" && GetStr(payload, "content_hash").Some?)
  {
    NodeIs(reg, payload);
    EdgeIs(reg, s, payload);
    ClassificationIs(reg, s, payload);
    assert |"node"| == 4 && |"edge"| == 4 && |"classification"| == 14 && |"document"| == 8 && "node"[0] == 'n' && "edge"[0] == 'e';
    hide NodeFits, EdgeFits, ClassificationFits, ValidateNode, ValidateEdge, ValidateClassification, GetStr;
  }
}
