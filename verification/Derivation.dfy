/**
 * Which schema a state holds (crates/allod-core/src/meta.rs:133-380): when one can be derived, and what it
 * declares, in terms of the live nodes of the state. Of several nodes with the same name the last in state
 * order counts.
 */
module Derivation {
  import opened Text
  import opened Values
  import opened Order
  import opened Objects
  import opened Registries
  import opened Meta

  // ---------------------------------------------------------------- nodes

  /** A live node whose type, versions aside, is this. */
  ghost predicate OfType(s: Objects, k: Key, t: string) {
    && k in s && k.0 == "node" && !s[k].deleted
    && GetStr(s[k].content, "type").Some? && Bare(GetStr(s[k].content, "type").value) == t
  }

  ghost function AttrStr(s: Objects, k: Key, field: string): Option<string>
    requires k in s
  {
    match Get(s[k].content, "attributes") case Some(attributes) => GetStr(attributes, field) case None => None
  }

  const SECTIONS: set<string> := {"meta/EntityType", "meta/EdgeType", "meta/Struct"}

  /** The node's definition reads as this. */
  ghost predicate Defines(parse: Parser, s: Objects, k: Key, def: Value)
    requires k in s
  {
    AttrStr(s, k, "definition").Some? && parse(AttrStr(s, k, "definition").value) == Some(def)
  }

  /** A node that declares a type, an edge type or a struct of this package under this name. */
  ghost predicate Declares(s: Objects, k: Key, t: string, pkg: string, name: string) {
    OfType(s, k, t) && AttrStr(s, k, "package") == Some(pkg) && AttrStr(s, k, "name") == Some(name)
  }

  ghost predicate States(s: Objects, k: Key, pkg: string) {
    OfType(s, k, "meta/ValidationRule") && AttrStr(s, k, "package") == Some(pkg)
  }

  ghost predicate Classifies(s: Objects, k: Key, tax: string, name: string) {
    OfType(s, k, "meta/TaxonomyTerm") && AttrStr(s, k, "taxonomy") == Some(tax) && AttrStr(s, k, "name") == Some(name)
  }

  // ---------------------------------------------------------------- when there is a schema

  /** The node says what its type asks for; one of no meta type does not claim the reserved package. */
  ghost predicate InOrderNode(parse: Parser, s: Objects, k: Key)
    requires k in s
  {
    && (forall t :: t in SECTIONS && OfType(s, k, t) ==>
          AttrStr(s, k, "name").Some? && AttrStr(s, k, "package").Some? && exists def :: Defines(parse, s, k, def))
    && (OfType(s, k, "meta/ValidationRule") ==> AttrStr(s, k, "package").Some? && exists def :: Defines(parse, s, k, def))
    && (OfType(s, k, "meta/TaxonomyTerm") ==> AttrStr(s, k, "name").Some? && AttrStr(s, k, "taxonomy").Some?)
    && (forall t :: OfType(s, k, t) && t !in SECTIONS + {"meta/ValidationRule", "meta/TaxonomyTerm", "meta/Policy"} ==>
          AttrStr(s, k, "package") != Some("meta") && AttrStr(s, k, "taxonomy") != Some("meta"))
  }

  lemma Names()
    ensures META_TYPES == SECTIONS + {"meta/ValidationRule", "meta/TaxonomyTerm", "meta/Policy"}
    ensures "meta/Policy" !in SECTIONS + {"meta/ValidationRule", "meta/TaxonomyTerm"}
    ensures "meta/ValidationRule" !in SECTIONS && "meta/TaxonomyTerm" !in SECTIONS && "meta/ValidationRule" != "meta/TaxonomyTerm"
  {
    assert |"meta/EntityType"| == 15 && |"meta/EdgeType"| == 13 && |"meta/Struct"| == 11 && |"meta/Policy"| == 11;
    assert |"meta/TaxonomyTerm"| == 17 && |"meta/ValidationRule"| == 19 && "meta/Policy"[5] == 'P' && "meta/Struct"[5] == 'S';
  }

  ghost predicate Reads(parse: Parser, attributes: Value) {
    GetStr(attributes, "definition").Some? && parse(GetStr(attributes, "definition").value).Some?
  }

  /** What a node of a meta type is recorded as depends on the type and the attributes alone. */
  lemma RecordWorks(parse: Parser, g: Gathered, t: string, attributes: Value)
    ensures Record(parse, g, t, attributes).Ok? <==>
              && (t in SECTIONS ==> GetStr(attributes, "name").Some? && GetStr(attributes, "package").Some?
                                    && Reads(parse, attributes))
              && (t == "meta/ValidationRule" ==> GetStr(attributes, "package").Some? && Reads(parse, attributes))
              && (t == "meta/TaxonomyTerm" ==> GetStr(attributes, "name").Some? && GetStr(attributes, "taxonomy").Some?)
  {
    Names();
    hide Put, Push, AddImports, TermValue, GetStr, GetSeq;
  }

  lemma AttrIs(s: Objects, k: Key, field: string)
    requires k in s
    ensures AttrStr(s, k, field) == GetStr(AttributesOf(s[k].content), field)
  {
  }

  lemma VisitWorks(parse: Parser, s: Objects, k: Key, g: Gathered)
    requires k in s
    ensures Visit(parse, s, k, g).Ok? <==> InOrderNode(parse, s, k)
  {
    forall field ensures AttrStr(s, k, field) == GetStr(AttributesOf(s[k].content), field) {
      AttrIs(s, k, field);
    }
    if LiveType(s, k).Some? {
      TypedWorks(parse, s, k, g, Bare(LiveType(s, k).value));
    } else {
      hide Record, AttributesOf, AttrStr, Bare, META_TYPES;
      assert forall u :: !OfType(s, k, u);
    }
  }

  lemma TypedWorks(parse: Parser, s: Objects, k: Key, g: Gathered, t: string)
    requires OfType(s, k, t) && forall field :: AttrStr(s, k, field) == GetStr(AttributesOf(s[k].content), field)
    ensures Visit(parse, s, k, g).Ok? <==> InOrderNode(parse, s, k)
  {
    assert forall u :: OfType(s, k, u) <==> u == t;
    assert LiveType(s, k).Some? && Bare(LiveType(s, k).value) == t;
    Names();
    RecordWorks(parse, g, t, AttributesOf(s[k].content));
    hide OfType, LiveType, Record, AttributesOf, AttrStr, GetStr, Bare, META_TYPES, SECTIONS;
    if AttrStr(s, k, "definition").Some? {
      var d := parse(AttrStr(s, k, "definition").value);
      assert d.Some? ==> Defines(parse, s, k, d.value);
    }
  }

  lemma {:induction false} GatherWorks(parse: Parser, s: Objects, keys: seq<Key>, g: Gathered)
    requires forall k :: k in keys ==> k in s
    ensures Gather(parse, s, keys, g).Ok? <==> forall k :: k in keys ==> InOrderNode(parse, s, k)
  {
    hide Visit, InOrderNode;
    if keys == [] {
    } else {
      VisitWorks(parse, s, keys[0], g);
      assert keys == [keys[0]] + keys[1..];
      if Visit(parse, s, keys[0], g).Ok? {
        GatherWorks(parse, s, keys[1..], Visit(parse, s, keys[0], g).value);
      }
    }
  }

  /** A schema can be derived exactly when every node is in order. */
  lemma DerivesExactly(parse: Parser, s: Objects)
    ensures FromState(parse, s).Ok? <==> forall k :: k in s ==> InOrderNode(parse, s, k)
  {
    GatherWorks(parse, s, InOrder(s.Keys), NOTHING);
    hide InOrderNode, Gather, InOrder;
  }

  // ---------------------------------------------------------------- what it declares

  ghost function DeclaresAs(s: Objects, t: string, pkg: string, name: string): Key -> bool {
    k => Declares(s, k, t, pkg, name)
  }

  /** Of the keys looked at, this is the last that satisfies the condition. */
  ghost predicate LastAt(seen: seq<Key>, p: Key -> bool, i: int) {
    0 <= i < |seen| && p(seen[i]) && forall j :: i < j < |seen| ==> !p(seen[j])
  }

  lemma LastAdds(seen: seq<Key>, k: Key, p: Key -> bool)
    ensures p(k) ==> LastAt(seen + [k], p, |seen|) && forall i :: LastAt(seen + [k], p, i) ==> i == |seen|
    ensures !p(k) ==> forall i :: LastAt(seen + [k], p, i) <==> LastAt(seen, p, i)
  {
    var more := seen + [k];
    assert more[|seen|] == k;
    if !p(k) {
      forall i ensures LastAt(more, p, i) <==> LastAt(seen, p, i) {
        assert forall j :: 0 <= j < |seen| ==> more[j] == seen[j];
      }
    }
  }

  /** The table holds, for each package and name, what the last node that declares them defines. */
  ghost predicate Holds(parse: Parser, s: Objects, t: string, table: map<string, map<string, Value>>, seen: seq<Key>) {
    forall pkg, name :: Entry(parse, s, t, table, seen, pkg, name)
  }

  ghost predicate Entry(parse: Parser, s: Objects, t: string, table: map<string, map<string, Value>>, seen: seq<Key>, pkg: string, name: string) {
    && (pkg in table && name in table[pkg] <==> exists i :: LastAt(seen, DeclaresAs(s, t, pkg, name), i))
    && forall i :: LastAt(seen, DeclaresAs(s, t, pkg, name), i) ==>
         seen[i] in s && pkg in table && name in table[pkg] && Defines(parse, s, seen[i], table[pkg][name])
  }

  lemma EntryKept(parse: Parser, s: Objects, t: string, table: map<string, map<string, Value>>, seen: seq<Key>, k: Key, pkg: string, name: string)
    requires Entry(parse, s, t, table, seen, pkg, name) && !Declares(s, k, t, pkg, name)
    ensures Entry(parse, s, t, table, seen + [k], pkg, name)
  {
    var p := DeclaresAs(s, t, pkg, name);
    LastAdds(seen, k, p);
    hide Declares, Defines;
    assert forall i :: LastAt(seen, p, i) ==> (seen + [k])[i] == seen[i];
  }

  lemma EntryPut(parse: Parser, s: Objects, t: string, table: map<string, map<string, Value>>, seen: seq<Key>, k: Key, pkg: string, name: string, def: Value)
    requires Declares(s, k, t, pkg, name) && Defines(parse, s, k, def)
    ensures Entry(parse, s, t, Put(table, pkg, name, def), seen + [k], pkg, name)
  {
    var p := DeclaresAs(s, t, pkg, name);
    LastAdds(seen, k, p);
    assert k in s;
    hide Declares, Defines;
    assert (seen + [k])[|seen|] == k;
  }

  lemma EntryBeside(parse: Parser, s: Objects, t: string, table: map<string, map<string, Value>>, seen: seq<Key>,
                    p: string, n: string, def: Value, pkg: string, name: string)
    requires Entry(parse, s, t, table, seen, pkg, name) && (p != pkg || n != name)
    ensures Entry(parse, s, t, Put(table, p, n, def), seen, pkg, name)
  {
    hide Declares, Defines, LastAt;
    var put := Put(table, p, n, def);
    assert pkg in put && name in put[pkg] <==> pkg in table && name in table[pkg];
    assert pkg in table && name in table[pkg] ==> put[pkg][name] == table[pkg][name];
  }

  lemma Declared(parse: Parser, s: Objects, t: string, table: map<string, map<string, Value>>, seen: seq<Key>, k: Key, p: string, n: string, def: Value)
    requires Holds(parse, s, t, table, seen) && Declares(s, k, t, p, n) && Defines(parse, s, k, def)
    ensures Holds(parse, s, t, Put(table, p, n, def), seen + [k])
  {
    assert forall pkg, name :: Declares(s, k, t, pkg, name) ==> pkg == p && name == n;
    hide Entry, Put, Declares, Defines;
    forall pkg, name ensures Entry(parse, s, t, Put(table, p, n, def), seen + [k], pkg, name) {
      if pkg == p && name == n {
        EntryPut(parse, s, t, table, seen, k, p, n, def);
      } else {
        EntryKept(parse, s, t, table, seen, k, pkg, name);
        EntryBeside(parse, s, t, table, seen + [k], p, n, def, pkg, name);
      }
    }
  }

  lemma Passed(parse: Parser, s: Objects, t: string, table: map<string, map<string, Value>>, seen: seq<Key>, k: Key)
    requires Holds(parse, s, t, table, seen) && !OfType(s, k, t)
    ensures Holds(parse, s, t, table, seen + [k])
  {
    assert forall pkg, name :: !Declares(s, k, t, pkg, name);
    hide Entry, Declares;
    forall pkg, name ensures Entry(parse, s, t, table, seen + [k], pkg, name) {
      EntryKept(parse, s, t, table, seen, k, pkg, name);
    }
  }

  /** The three tables hold what the nodes looked at declare. */
  ghost predicate AllHold(parse: Parser, s: Objects, g: Gathered, seen: seq<Key>) {
    && Holds(parse, s, "meta/EntityType", g.types, seen) && Holds(parse, s, "meta/EdgeType", g.edges, seen)
    && Holds(parse, s, "meta/Struct", g.structs, seen)
  }

  /** What recording one node does to the tables. */
  lemma SectionRecorded(parse: Parser, g: Gathered, t: string, attributes: Value)
    requires t in SECTIONS && Record(parse, g, t, attributes).Ok?
    ensures GetStr(attributes, "package").Some? && GetStr(attributes, "name").Some? && Reads(parse, attributes)
    ensures var g' := Record(parse, g, t, attributes).value;
            var pkg, name, def := GetStr(attributes, "package").value, GetStr(attributes, "name").value, parse(GetStr(attributes, "definition").value).value;
            && g'.types == (if t == "meta/EntityType" then Put(g.types, pkg, name, def) else g.types)
            && g'.edges == (if t == "meta/EdgeType" then Put(g.edges, pkg, name, def) else g.edges)
            && g'.structs == (if t == "meta/Struct" then Put(g.structs, pkg, name, def) else g.structs)
  {
    TypesApart();
    hide Put, Push, AddImports, TermValue, GetSeq, GetStr;
  }

  lemma RuleRecorded(parse: Parser, g: Gathered, attributes: Value)
    requires Record(parse, g, "meta/ValidationRule", attributes).Ok?
    ensures var g' := Record(parse, g, "meta/ValidationRule", attributes).value; g'.types == g.types && g'.edges == g.edges && g'.structs == g.structs
  {
    Names();
    hide META_TYPES, Definition, Push, AddImports, GetStr;
  }

  lemma TermRecorded(parse: Parser, g: Gathered, attributes: Value)
    requires Record(parse, g, "meta/TaxonomyTerm", attributes).Ok?
    ensures var g' := Record(parse, g, "meta/TaxonomyTerm", attributes).value; g'.types == g.types && g'.edges == g.edges && g'.structs == g.structs
  {
    Names();
    hide META_TYPES, Push, TermValue, GetSeq, GetStr;
  }

  lemma OtherRecorded(parse: Parser, g: Gathered, t: string, attributes: Value)
    requires t !in SECTIONS && Record(parse, g, t, attributes).Ok?
    ensures var g' := Record(parse, g, t, attributes).value; g'.types == g.types && g'.edges == g.edges && g'.structs == g.structs
  {
    if t == "meta/ValidationRule" {
      hide Record;
      RuleRecorded(parse, g, attributes);
    } else if t == "meta/TaxonomyTerm" {
      hide Record;
      TermRecorded(parse, g, attributes);
    } else {
      TypesApart();
      hide SECTIONS, Definition, GetStr, Put, Push, AddImports, TermValue;
      assert Record(parse, g, t, attributes) == Ok(g);
    }
  }

  lemma VisitRecords(parse: Parser, s: Objects, k: Key, g: Gathered, t: string)
    requires k in s && Visit(parse, s, k, g).Ok?
    requires OfType(s, k, t)
    ensures t in META_TYPES ==> Visit(parse, s, k, g) == Record(parse, g, t, AttributesOf(s[k].content))
    ensures t !in META_TYPES ==> Visit(parse, s, k, g) == Ok(g)
  {
    hide Record, Bare, META_TYPES;
  }

  lemma TypesApart()
    ensures "meta/EntityType" != "meta/EdgeType" && "meta/EntityType" != "meta/Struct" && "meta/EdgeType" != "meta/Struct"
    ensures SECTIONS == {"meta/EntityType", "meta/EdgeType", "meta/Struct"}
  {
    assert |"meta/EntityType"| == 15 && |"meta/EdgeType"| == 13 && |"meta/Struct"| == 11;
  }

  lemma SectionStep(parse: Parser, s: Objects, k: Key, t: string, g: Gathered, g': Gathered, seen: seq<Key>)
    requires AllHold(parse, s, g, seen) && OfType(s, k, t) && t in SECTIONS
    requires Record(parse, g, t, AttributesOf(s[k].content)) == Ok(g')
    ensures AllHold(parse, s, g', seen + [k])
  {
    var attributes := AttributesOf(s[k].content);
    RecordWorks(parse, g, t, attributes);
    SectionRecorded(parse, g, t, attributes);
    AttrIs(s, k, "package");
    AttrIs(s, k, "name");
    AttrIs(s, k, "definition");
    var pkg, name, def := GetStr(attributes, "package").value, GetStr(attributes, "name").value, parse(GetStr(attributes, "definition").value).value;
    assert Declares(s, k, t, pkg, name) && Defines(parse, s, k, def);
    TypesApart();
    assert forall u :: u != t ==> !OfType(s, k, u);
    hide Record, AttributesOf, AttrStr, GetStr, OfType, Declares, Defines, Holds, Put, SECTIONS;
    if t == "meta/EntityType" {
      Declared(parse, s, t, g.types, seen, k, pkg, name, def);
    } else {
      Passed(parse, s, "meta/EntityType", g.types, seen, k);
    }
    if t == "meta/EdgeType" {
      Declared(parse, s, t, g.edges, seen, k, pkg, name, def);
    } else {
      Passed(parse, s, "meta/EdgeType", g.edges, seen, k);
    }
    if t == "meta/Struct" {
      Declared(parse, s, t, g.structs, seen, k, pkg, name, def);
    } else {
      Passed(parse, s, "meta/Struct", g.structs, seen, k);
    }
  }

  lemma OtherStep(parse: Parser, s: Objects, k: Key, g: Gathered, g': Gathered, seen: seq<Key>)
    requires AllHold(parse, s, g, seen) && forall t :: t in SECTIONS ==> !OfType(s, k, t)
    requires g'.types == g.types && g'.edges == g.edges && g'.structs == g.structs
    ensures AllHold(parse, s, g', seen + [k])
  {
    TypesApart();
    hide Holds, OfType;
    Passed(parse, s, "meta/EntityType", g.types, seen, k);
    Passed(parse, s, "meta/EdgeType", g.edges, seen, k);
    Passed(parse, s, "meta/Struct", g.structs, seen, k);
  }

  lemma VisitHolds(parse: Parser, s: Objects, k: Key, g: Gathered, seen: seq<Key>)
    requires k in s && AllHold(parse, s, g, seen) && Visit(parse, s, k, g).Ok?
    ensures AllHold(parse, s, Visit(parse, s, k, g).value, seen + [k])
  {
    var g' := Visit(parse, s, k, g).value;
    Names();
    if LiveType(s, k).Some? {
      var t := Bare(LiveType(s, k).value);
      assert OfType(s, k, t) && forall u :: OfType(s, k, u) ==> u == t;
      VisitRecords(parse, s, k, g, t);
      hide Visit, Record, OfType, AllHold, Bare, META_TYPES, SECTIONS;
      if t in SECTIONS {
        SectionStep(parse, s, k, t, g, g', seen);
      } else {
        if t in META_TYPES {
          OtherRecorded(parse, g, t, AttributesOf(s[k].content));
        }
        OtherStep(parse, s, k, g, g', seen);
      }
    } else {
      assert g' == g && forall u :: !OfType(s, k, u);
      hide Visit, OfType, AllHold;
      OtherStep(parse, s, k, g, g', seen);
    }
  }

  lemma {:induction false} GatherHolds(parse: Parser, s: Objects, keys: seq<Key>, g: Gathered, seen: seq<Key>)
    requires forall k :: k in keys ==> k in s
    requires AllHold(parse, s, g, seen) && Gather(parse, s, keys, g).Ok?
    ensures AllHold(parse, s, Gather(parse, s, keys, g).value, seen + keys)
  {
    hide Visit, AllHold;
    if keys == [] {
      assert seen + [] == seen;
    } else {
      VisitHolds(parse, s, keys[0], g, seen);
      GatherHolds(parse, s, keys[1..], Visit(parse, s, keys[0], g).value, seen + [keys[0]]);
      assert seen + [keys[0]] + keys[1..] == seen + keys;
    }
  }

  lemma NothingHolds(parse: Parser, s: Objects)
    ensures AllHold(parse, s, NOTHING, [])
  {
    hide Declares, Defines;
  }

  /** Of the keys that satisfy the condition this is the greatest in state order. */
  ghost predicate Greatest(s: Objects, p: Key -> bool, k: Key) {
    k in s && p(k) && forall j :: j in s && p(j) ==> j == k || Before(j, k)
  }

  lemma GreatestIsLast(s: Objects, p: Key -> bool, k: Key) returns (i: int)
    requires Greatest(s, p, k)
    ensures LastAt(InOrder(s.Keys), p, i) && InOrder(s.Keys)[i] == k
  {
    var keys := InOrder(s.Keys);
    assert k in keys;
    BeforeIsOrder();
    hide Before, InOrder;
    i :| 0 <= i < |keys| && keys[i] == k;
    forall j | i < j < |keys| ensures !p(keys[j]) {
      assert Before(keys[i], keys[j]);
      assert !(Before(keys[j], keys[i])) && keys[j] != keys[i];
    }
  }

  lemma LastIsGreatest(s: Objects, p: Key -> bool, i: int)
    requires LastAt(InOrder(s.Keys), p, i)
    ensures Greatest(s, p, InOrder(s.Keys)[i])
  {
    var keys := InOrder(s.Keys);
    hide Before, InOrder;
    forall j | j in s && p(j) ensures j == keys[i] || Before(j, keys[i]) {
      var m :| 0 <= m < |keys| && keys[m] == j;
    }
  }

  /** The last node, in state order, that declares this package and name. */
  ghost predicate DeclaresLast(s: Objects, k: Key, t: string, pkg: string, name: string) {
    Greatest(s, DeclaresAs(s, t, pkg, name), k)
  }

  ghost function Table(p: Package, t: string): Value {
    if t == "meta/EntityType" then p.types else if t == "meta/EdgeType" then p.edges else p.structs
  }

  ghost function TableOf(g: Gathered, t: string): map<string, map<string, Value>> {
    if t == "meta/EntityType" then g.types else if t == "meta/EdgeType" then g.edges else g.structs
  }

  lemma PackageAt(g: Gathered, pkg: string)
    requires pkg != "meta"
    ensures pkg in Assemble(g).packages <==> pkg in PackageNames(g)
    ensures pkg in PackageNames(g) ==> Assemble(g).packages[pkg] == AssemblePackage(g, pkg)
  {
    assert META_REGISTRY.packages.Keys == {"meta"};
    hide META_PACKAGE, PackageNames, AssemblePackage;
  }

  lemma Assembled(g: Gathered, t: string, pkg: string, name: string)
    requires pkg != "meta"
    ensures var reg, table := Assemble(g), TableOf(g, t);
            && (pkg in reg.packages && Get(Table(reg.packages[pkg], t), name).Some? <==> pkg in table && name in table[pkg])
            && (pkg in table && name in table[pkg] ==> pkg in reg.packages && Get(Table(reg.packages[pkg], t), name) == Some(table[pkg][name]))
  {
    hide *;
    PackageAt(g, pkg);
    TableAt(g, t, pkg);
    MapGets(TableOf(g, t), pkg, name);
  }

  lemma TableAt(g: Gathered, t: string, pkg: string)
    ensures pkg in TableOf(g, t) ==> pkg in PackageNames(g)
    ensures Table(AssemblePackage(g, pkg), t) == MapOrNull(TableOf(g, t), pkg)
  {
    hide MapOrNull, StringsInOrder;
  }

  lemma MapGets(table: map<string, map<string, Value>>, pkg: string, name: string)
    ensures Get(MapOrNull(table, pkg), name) == if pkg in table && name in table[pkg] then Some(table[pkg][name]) else None
  {
  }

  /**
   * The derived schema declares, under each package but the reserved one and each name, exactly what the last
   * live node of the section that gives them defines.
   */
  lemma DeclaresExactly(parse: Parser, s: Objects, reg: Registry, t: string, pkg: string, name: string, def: Value)
    requires FromState(parse, s) == Ok(reg) && t in SECTIONS && pkg != "meta"
    ensures pkg in reg.packages && Get(Table(reg.packages[pkg], t), name) == Some(def) <==>
            exists k :: DeclaresLast(s, k, t, pkg, name) && Defines(parse, s, k, def)
  {
    hide *;
    var g := WhatIsGathered(parse, s, reg);
    HoldsTable(parse, s, g, t, InOrder(s.Keys));
    Assembled(g, t, pkg, name);
    FromEntry(parse, s, t, TableOf(g, t), pkg, name, def);
    SameEntry(reg, t, TableOf(g, t), pkg, name, def);
  }

  lemma SameEntry(reg: Registry, t: string, table: map<string, map<string, Value>>, pkg: string, name: string, def: Value)
    requires pkg in reg.packages && Get(Table(reg.packages[pkg], t), name).Some? <==> pkg in table && name in table[pkg]
    requires pkg in table && name in table[pkg] ==> pkg in reg.packages && Get(Table(reg.packages[pkg], t), name) == Some(table[pkg][name])
    ensures pkg in reg.packages && Get(Table(reg.packages[pkg], t), name) == Some(def) <==> pkg in table && name in table[pkg] && table[pkg][name] == def
  {
    hide Get, Table;
  }

  lemma HoldsTable(parse: Parser, s: Objects, g: Gathered, t: string, seen: seq<Key>)
    requires AllHold(parse, s, g, seen) && t in SECTIONS
    ensures Holds(parse, s, t, TableOf(g, t), seen)
  {
    TypesApart();
    hide Holds, SECTIONS;
  }

  lemma WhatIsGathered(parse: Parser, s: Objects, reg: Registry) returns (g: Gathered)
    requires FromState(parse, s) == Ok(reg)
    ensures reg == Assemble(g) && AllHold(parse, s, g, InOrder(s.Keys))
  {
    hide AllHold, Gather, Assemble;
    var keys := InOrder(s.Keys);
    g := Gather(parse, s, keys, NOTHING).value;
    NothingHolds(parse, s);
    GatherHolds(parse, s, keys, NOTHING, []);
    assert [] + keys == keys;
  }

  lemma FromEntry(parse: Parser, s: Objects, t: string, table: map<string, map<string, Value>>, pkg: string, name: string, def: Value)
    requires Holds(parse, s, t, table, InOrder(s.Keys))
    ensures pkg in table && name in table[pkg] && table[pkg][name] == def <==>
            exists k :: DeclaresLast(s, k, t, pkg, name) && Defines(parse, s, k, def)
  {
    var keys := InOrder(s.Keys);
    assert Entry(parse, s, t, table, keys, pkg, name);
    hide Holds, Greatest, Declares, LastAt, InOrder, AttrStr, DeclaresAs;
    if pkg in table && name in table[pkg] && table[pkg][name] == def {
      var i :| LastAt(keys, DeclaresAs(s, t, pkg, name), i);
      LastInRange(keys, DeclaresAs(s, t, pkg, name), i);
      LastIsGreatest(s, DeclaresAs(s, t, pkg, name), i);
    }
    if k :| DeclaresLast(s, k, t, pkg, name) && Defines(parse, s, k, def) {
      var i := GreatestIsLast(s, DeclaresAs(s, t, pkg, name), k);
    }
  }

  lemma LastInRange(seen: seq<Key>, p: Key -> bool, i: int)
    requires LastAt(seen, p, i)
    ensures 0 <= i < |seen|
  {
  }

  // ---------------------------------------------------------------- terms and rules

  ghost function ClassifiesAs(s: Objects, tax: string, name: string): Key -> bool {
    k => Classifies(s, k, tax, name)
  }

  /** The parents a term node lists. */
  ghost predicate Below(s: Objects, k: Key, parent: string)
    requires k in s
  {
    && Get(s[k].content, "attributes").Some? && GetSeq(Get(s[k].content, "attributes").value, "parents").Some?
    && Str(parent) in GetSeq(Get(s[k].content, "attributes").value, "parents").value
  }

  /** The term is there when a node classifies it, with the parents the last such node lists. */
  ghost predicate TermEntry(s: Objects, terms: map<string, seq<Value>>, seen: seq<Key>, tax: string, name: string) {
    && (tax in terms && name in TermMap(terms[tax]) <==> exists i :: LastAt(seen, ClassifiesAs(s, tax, name), i))
    && forall i :: LastAt(seen, ClassifiesAs(s, tax, name), i) ==>
         seen[i] in s && tax in terms && name in TermMap(terms[tax]) && forall parent :: parent in TermMap(terms[tax])[name] <==> Below(s, seen[i], parent)
  }

  ghost predicate RuleEntry(parse: Parser, s: Objects, rules: map<string, seq<Value>>, seen: seq<Key>, pkg: string, rule: Value) {
    pkg in rules && rule in rules[pkg] <==> exists k :: k in seen && StatesRule(parse, s, k, pkg, rule)
  }

  ghost predicate StatesRule(parse: Parser, s: Objects, k: Key, pkg: string, rule: Value) {
    States(s, k, pkg) && Defines(parse, s, k, rule)
  }

  /** The term lists and rule lists hold what the nodes looked at say. */
  ghost predicate ListsHold(parse: Parser, s: Objects, g: Gathered, seen: seq<Key>) {
    && (forall tax, name :: TermEntry(s, g.terms, seen, tax, name))
    && (forall pkg, rule :: RuleEntry(parse, s, g.rules, seen, pkg, rule))
  }

  /** What recording one node does to the lists. */
  lemma RecordPushes(parse: Parser, g: Gathered, t: string, attributes: Value)
    requires Record(parse, g, t, attributes).Ok?
    ensures var g' := Record(parse, g, t, attributes).value;
            && (t != "meta/TaxonomyTerm" ==> g'.terms == g.terms) && (t != "meta/ValidationRule" ==> g'.rules == g.rules)
            && (t == "meta/TaxonomyTerm" ==>
                  g'.terms == Push(g.terms, GetStr(attributes, "taxonomy").value,
                                   TermValue(GetStr(attributes, "name").value, GetSeq(attributes, "parents").GetOr([]), GetStr(attributes, "status"))))
            && (t == "meta/ValidationRule" ==>
                  g'.rules == Push(g.rules, GetStr(attributes, "package").value, parse(GetStr(attributes, "definition").value).value))
  {
    RecordWorks(parse, g, t, attributes);
    Names();
    hide Put, Push, AddImports, TermValue;
  }

  lemma TermPushed(terms: map<string, seq<Value>>, tax: string, name: string, parents: seq<Value>, status: Option<string>)
    ensures var more := Push(terms, tax, TermValue(name, parents, status));
            && tax in more && more.Keys == terms.Keys + {tax} && (forall other :: other in terms && other != tax ==> more[other] == terms[other])
            && TermMap(more[tax]) == (if tax in terms then TermMap(terms[tax]) else map[])[name := Strings(parents)]
  {
    var v := TermValue(name, parents, status);
    assert GetStr(v, "name") == Some(name) && GetSeq(v, "parents") == Some(parents);
    var before := if tax in terms then terms[tax] else [];
    assert (before + [v])[..|before|] == before;
    hide TermValue, GetStr, GetSeq;
    assert TermMap(before + [v]) == TermMap(before)[name := TermParents(v)];
    hide Strings;
  }

  lemma TermKept(s: Objects, terms: map<string, seq<Value>>, seen: seq<Key>, k: Key, tax: string, name: string)
    requires TermEntry(s, terms, seen, tax, name) && !Classifies(s, k, tax, name)
    ensures TermEntry(s, terms, seen + [k], tax, name)
  {
    var p := ClassifiesAs(s, tax, name);
    LastAdds(seen, k, p);
    hide Classifies, Below, TermMap;
    assert forall i :: LastAt(seen, p, i) ==> (seen + [k])[i] == seen[i];
  }

  lemma TermAdded(s: Objects, terms: map<string, seq<Value>>, seen: seq<Key>, k: Key, tax: string, name: string, parents: seq<Value>)
    requires Classifies(s, k, tax, name) && tax in terms && name in TermMap(terms[tax]) && TermMap(terms[tax])[name] == Strings(parents)
    requires k in s && forall parent :: Below(s, k, parent) <==> Str(parent) in parents
    ensures TermEntry(s, terms, seen + [k], tax, name)
  {
    var p := ClassifiesAs(s, tax, name);
    LastAdds(seen, k, p);
    hide Classifies, Below, TermMap, Strings;
    assert (seen + [k])[|seen|] == k;
  }

  lemma TermStep(s: Objects, k: Key, terms: map<string, seq<Value>>, seen: seq<Key>, tax: string, name: string, parents: seq<Value>, status: Option<string>)
    requires k in s && Classifies(s, k, tax, name) && forall parent :: Below(s, k, parent) <==> Str(parent) in parents
    requires forall x, n :: TermEntry(s, terms, seen, x, n)
    ensures forall x, n :: TermEntry(s, Push(terms, tax, TermValue(name, parents, status)), seen + [k], x, n)
  {
    TermPushed(terms, tax, name, parents, status);
    var more := Push(terms, tax, TermValue(name, parents, status));
    assert forall x, n :: Classifies(s, k, x, n) ==> x == tax && n == name;
    hide Push, TermValue, Classifies, Below, TermMap, Strings;
    forall x, n ensures TermEntry(s, more, seen + [k], x, n) {
      if x == tax && n == name {
        TermAdded(s, more, seen, k, tax, name, parents);
      } else {
        TermKept(s, terms, seen, k, x, n);
        TermBeside(s, terms, more, seen + [k], x, n);
      }
    }
  }

  lemma TermBeside(s: Objects, terms: map<string, seq<Value>>, more: map<string, seq<Value>>, seen: seq<Key>, tax: string, name: string)
    requires TermEntry(s, terms, seen, tax, name)
    requires tax in more && name in TermMap(more[tax]) <==> tax in terms && name in TermMap(terms[tax])
    requires tax in terms && name in TermMap(terms[tax]) ==> TermMap(more[tax])[name] == TermMap(terms[tax])[name]
    ensures TermEntry(s, more, seen, tax, name)
  {
    hide LastAt, ClassifiesAs, Below, TermMap;
  }

  lemma TermsPass(s: Objects, k: Key, terms: map<string, seq<Value>>, seen: seq<Key>)
    requires !OfType(s, k, "meta/TaxonomyTerm") && forall x, n :: TermEntry(s, terms, seen, x, n)
    ensures forall x, n :: TermEntry(s, terms, seen + [k], x, n)
  {
    hide TermEntry;
    forall x, n ensures TermEntry(s, terms, seen + [k], x, n) {
      TermKept(s, terms, seen, k, x, n);
    }
  }

  lemma RuleStep(parse: Parser, s: Objects, k: Key, rules: map<string, seq<Value>>, seen: seq<Key>, pkg: string, def: Value)
    requires StatesRule(parse, s, k, pkg, def) && forall p, r :: RuleEntry(parse, s, rules, seen, p, r)
    ensures forall p, r :: RuleEntry(parse, s, Push(rules, pkg, def), seen + [k], p, r)
  {
    assert forall p, r :: StatesRule(parse, s, k, p, r) ==> p == pkg && r == def;
    hide StatesRule;
    forall p, r ensures RuleEntry(parse, s, Push(rules, pkg, def), seen + [k], p, r) {
      assert RuleEntry(parse, s, rules, seen, p, r);
      assert forall j :: j in seen + [k] <==> j in seen || j == k;
    }
  }

  lemma RulesPass(parse: Parser, s: Objects, k: Key, rules: map<string, seq<Value>>, seen: seq<Key>)
    requires !OfType(s, k, "meta/ValidationRule") && forall p, r :: RuleEntry(parse, s, rules, seen, p, r)
    ensures forall p, r :: RuleEntry(parse, s, rules, seen + [k], p, r)
  {
    assert forall p, r :: !StatesRule(parse, s, k, p, r);
    hide StatesRule, OfType;
    forall p, r ensures RuleEntry(parse, s, rules, seen + [k], p, r) {
      assert RuleEntry(parse, s, rules, seen, p, r);
      assert forall j :: j in seen + [k] <==> j in seen || j == k;
    }
  }

  lemma TermVisited(parse: Parser, s: Objects, k: Key, g: Gathered, g': Gathered, seen: seq<Key>)
    requires ListsHold(parse, s, g, seen) && OfType(s, k, "meta/TaxonomyTerm") && Record(parse, g, "meta/TaxonomyTerm", AttributesOf(s[k].content)) == Ok(g')
    ensures ListsHold(parse, s, g', seen + [k])
  {
    var attributes := AttributesOf(s[k].content);
    RecordWorks(parse, g, "meta/TaxonomyTerm", attributes);
    RecordPushes(parse, g, "meta/TaxonomyTerm", attributes);
    AttrIs(s, k, "taxonomy");
    AttrIs(s, k, "name");
    var tax, name, parents := GetStr(attributes, "taxonomy").value, GetStr(attributes, "name").value, GetSeq(attributes, "parents").GetOr([]);
    assert Classifies(s, k, tax, name) && forall parent :: Below(s, k, parent) <==> Str(parent) in parents;
    Names();
    assert !OfType(s, k, "meta/ValidationRule");
    hide Record, AttributesOf, GetStr, GetSeq, OfType, Classifies, Below, TermEntry, RuleEntry, Push, TermValue;
    TermStep(s, k, g.terms, seen, tax, name, parents, GetStr(attributes, "status"));
    RulesPass(parse, s, k, g.rules, seen);
  }

  lemma RuleVisited(parse: Parser, s: Objects, k: Key, g: Gathered, g': Gathered, seen: seq<Key>)
    requires ListsHold(parse, s, g, seen) && OfType(s, k, "meta/ValidationRule") && Record(parse, g, "meta/ValidationRule", AttributesOf(s[k].content)) == Ok(g')
    ensures ListsHold(parse, s, g', seen + [k])
  {
    var attributes := AttributesOf(s[k].content);
    RecordWorks(parse, g, "meta/ValidationRule", attributes);
    RecordPushes(parse, g, "meta/ValidationRule", attributes);
    AttrIs(s, k, "package");
    AttrIs(s, k, "definition");
    var pkg, def := GetStr(attributes, "package").value, parse(GetStr(attributes, "definition").value).value;
    assert StatesRule(parse, s, k, pkg, def);
    Names();
    assert !OfType(s, k, "meta/TaxonomyTerm");
    hide Record, AttributesOf, GetStr, OfType, StatesRule, TermEntry, RuleEntry, Push;
    TermsPass(s, k, g.terms, seen);
    RuleStep(parse, s, k, g.rules, seen, pkg, def);
  }

  lemma ListsPass(parse: Parser, s: Objects, k: Key, g: Gathered, g': Gathered, seen: seq<Key>)
    requires ListsHold(parse, s, g, seen) && !OfType(s, k, "meta/TaxonomyTerm") && !OfType(s, k, "meta/ValidationRule")
    requires g'.terms == g.terms && g'.rules == g.rules
    ensures ListsHold(parse, s, g', seen + [k])
  {
    hide OfType, TermEntry, RuleEntry;
    TermsPass(s, k, g.terms, seen);
    RulesPass(parse, s, k, g.rules, seen);
  }

  lemma VisitLists(parse: Parser, s: Objects, k: Key, g: Gathered, seen: seq<Key>)
    requires k in s && ListsHold(parse, s, g, seen) && Visit(parse, s, k, g).Ok?
    ensures ListsHold(parse, s, Visit(parse, s, k, g).value, seen + [k])
  {
    var g' := Visit(parse, s, k, g).value;
    Names();
    if LiveType(s, k).Some? {
      var t := Bare(LiveType(s, k).value);
      assert OfType(s, k, t) && forall u :: OfType(s, k, u) ==> u == t;
      VisitRecords(parse, s, k, g, t);
      hide Visit, Record, OfType, ListsHold, Bare, SECTIONS;
      if t == "meta/TaxonomyTerm" {
        TermVisited(parse, s, k, g, g', seen);
      } else if t == "meta/ValidationRule" {
        RuleVisited(parse, s, k, g, g', seen);
      } else {
        hide META_TYPES;
        if t in META_TYPES {
          RecordPushes(parse, g, t, AttributesOf(s[k].content));
        }
        ListsPass(parse, s, k, g, g', seen);
      }
    } else {
      assert g' == g && forall u :: !OfType(s, k, u);
      hide Visit, OfType, ListsHold;
      ListsPass(parse, s, k, g, g', seen);
    }
  }

  lemma {:induction false} GatherLists(parse: Parser, s: Objects, keys: seq<Key>, g: Gathered, seen: seq<Key>)
    requires forall k :: k in keys ==> k in s
    requires ListsHold(parse, s, g, seen) && Gather(parse, s, keys, g).Ok?
    ensures ListsHold(parse, s, Gather(parse, s, keys, g).value, seen + keys)
  {
    hide Visit, ListsHold;
    if keys == [] {
      assert seen + [] == seen;
    } else {
      VisitLists(parse, s, keys[0], g, seen);
      GatherLists(parse, s, keys[1..], Visit(parse, s, keys[0], g).value, seen + [keys[0]]);
      assert seen + [keys[0]] + keys[1..] == seen + keys;
    }
  }

  lemma WhatIsListed(parse: Parser, s: Objects, reg: Registry) returns (g: Gathered)
    requires FromState(parse, s) == Ok(reg)
    ensures reg == Assemble(g) && ListsHold(parse, s, g, InOrder(s.Keys))
  {
    hide ListsHold, Gather, Assemble;
    var keys := InOrder(s.Keys);
    g := Gather(parse, s, keys, NOTHING).value;
    NothingListed(parse, s);
    GatherLists(parse, s, keys, NOTHING, []);
    assert [] + keys == keys;
  }

  lemma NothingListed(parse: Parser, s: Objects)
    ensures ListsHold(parse, s, NOTHING, [])
  {
    hide Classifies, StatesRule, Below;
  }

  /** The last node, in state order, that classifies this term. */
  ghost predicate ClassifiesLast(s: Objects, k: Key, tax: string, name: string) {
    Greatest(s, ClassifiesAs(s, tax, name), k)
  }

  lemma FromTermEntry(s: Objects, terms: map<string, seq<Value>>, tax: string, name: string)
    requires TermEntry(s, terms, InOrder(s.Keys), tax, name)
    ensures tax in terms && name in TermMap(terms[tax]) <==> exists k :: ClassifiesLast(s, k, tax, name)
    ensures forall k :: ClassifiesLast(s, k, tax, name) ==>
              k in s && tax in terms && name in TermMap(terms[tax]) && forall parent :: parent in TermMap(terms[tax])[name] <==> Below(s, k, parent)
  {
    var keys := InOrder(s.Keys);
    hide Greatest, LastAt, ClassifiesAs, InOrder, TermMap, Below;
    if tax in terms && name in TermMap(terms[tax]) {
      var i :| LastAt(keys, ClassifiesAs(s, tax, name), i);
      LastIsGreatest(s, ClassifiesAs(s, tax, name), i);
    }
    forall k | ClassifiesLast(s, k, tax, name)
      ensures k in s && tax in terms && name in TermMap(terms[tax]) && forall parent :: parent in TermMap(terms[tax])[name] <==> Below(s, k, parent) {
      var i := GreatestIsLast(s, ClassifiesAs(s, tax, name), k);
    }
  }

  /**
   * A derived taxonomy has exactly the terms that live nodes classify under it, each below the parents that the
   * last such node lists.
   */
  lemma ClassifiesExactly(parse: Parser, s: Objects, reg: Registry, tax: string, name: string)
    requires FromState(parse, s) == Ok(reg)
    ensures tax in reg.taxonomies && name in reg.taxonomies[tax].terms <==> exists k :: ClassifiesLast(s, k, tax, name)
    ensures forall k, parent :: ClassifiesLast(s, k, tax, name) && tax in reg.taxonomies && name in reg.taxonomies[tax].terms ==>
              k in s && (parent in reg.taxonomies[tax].terms[name] <==> Below(s, k, parent))
  {
    var g := WhatIsListed(parse, s, reg);
    TaxonomyAt(g, tax);
    assert TermEntry(s, g.terms, InOrder(s.Keys), tax, name);
    hide FromState, Assemble, TermEntry, ListsHold, ClassifiesLast, InOrder, TermMap, Below;
    FromTermEntry(s, g.terms, tax, name);
  }

  lemma TaxonomyAt(g: Gathered, tax: string)
    ensures tax in Assemble(g).taxonomies <==> tax in g.terms
    ensures tax in g.terms ==> Assemble(g).taxonomies[tax].terms == TermMap(g.terms[tax])
  {
    assert META_REGISTRY.taxonomies == map[];
    hide META_PACKAGE, TermMap;
  }

  /** The rules of a derived package are exactly those that live rule nodes of the package define. */
  lemma RulesExactly(parse: Parser, s: Objects, reg: Registry, pkg: string, rule: Value)
    requires FromState(parse, s) == Ok(reg) && pkg != "meta"
    ensures pkg in reg.packages && reg.packages[pkg].rules.Seq? && rule in reg.packages[pkg].rules.items <==>
            exists k :: StatesRule(parse, s, k, pkg, rule)
  {
    var g := WhatIsListed(parse, s, reg);
    AssembledRules(g, pkg);
    assert RuleEntry(parse, s, g.rules, InOrder(s.Keys), pkg, rule);
    assert forall k :: StatesRule(parse, s, k, pkg, rule) ==> k in InOrder(s.Keys);
    hide FromState, Assemble, ListsHold, StatesRule, InOrder;
  }

  lemma AssembledRules(g: Gathered, pkg: string)
    requires pkg != "meta"
    ensures pkg in g.rules ==> pkg in Assemble(g).packages && Assemble(g).packages[pkg].rules == Seq(g.rules[pkg])
    ensures pkg !in g.rules && pkg in Assemble(g).packages ==> Assemble(g).packages[pkg].rules == Null
  {
    PackageAt(g, pkg);
    hide Assemble, StringsInOrder;
  }
}
