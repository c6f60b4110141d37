/**
 * Compiling documents and reading the nodes back gives the registry the documents load
 * (crates/allod-core/src/schemaops.rs:57-192, crates/allod-core/src/meta.rs:133-380).
 */
module SchemaCompilation {
  import opened Text
  import opened Values
  import opened Order
  import opened Hashing
  import opened Objects
  import opened Registries
  import opened Meta
  import opened Fold
  import Model
  import opened SchemaOps
  import opened SchemaProjection

  // ---------------------------------------------------------------- the state the operations build

  /** The state that holds exactly the compiled nodes. */
  function Installed(sha: Sha, show: Printer, mint: Mint, es: seq<Element>): Objects {
    if es == [] then map[]
    else
      var n := |es| - 1;
      Installed(sha, show, mint, es[..n])[("node", mint(n)) := NewObject(sha, NodePayload(show, mint(n), es[n]))]
  }

  lemma CreateApplies(sha: Sha, reg: Registry, w: Working, show: Printer, id: string, e: Element)
    requires ApplyOp(sha, reg, w, CreateNode(show, id, e)).Ok?
    ensures ApplyOp(sha, reg, w, CreateNode(show, id, e)).value.objects
         == w.objects[("node", id) := NewObject(sha, NodePayload(show, id, e))]
  {
    hide NewObject, ValidatePayload;
    var payload := NodePayload(show, id, e);
    ParsesSingle("create", payload);
    assert KeyOf(payload) == Ok(("node", id));
  }

  lemma JoinLast(s: Objects, m: Objects, k: Key, x: Obj)
    ensures s + m[k := x] == (s + m)[k := x]
  {
  }

  lemma InstalledLast(sha: Sha, show: Printer, mint: Mint, es: seq<Element>)
    requires es != []
    ensures var n := |es| - 1;
            Installed(sha, show, mint, es) == Installed(sha, show, mint, es[..n])[("node", mint(n)) := NewObject(sha, NodePayload(show, mint(n), es[n]))]
  {
    hide NewObject, NodePayload;
  }

  /** Accepted on any state, the compiled operations add exactly the compiled nodes. */
  lemma {:induction false} InstalledByFold(sha: Sha, reg: Registry, w: Working, show: Printer, mint: Mint, es: seq<Element>)
    requires ApplyOps(sha, reg, w, CreateNodes(show, mint, es)).Ok?
    ensures ApplyOps(sha, reg, w, CreateNodes(show, mint, es)).value.objects == w.objects + Installed(sha, show, mint, es)
  {
    hide ApplyOp, CreateNode, NewObject, NodePayload;
    if es == [] {
      assert w.objects + map[] == w.objects;
    } else {
      var n := |es| - 1;
      var front, op := CreateNodes(show, mint, es[..n]), CreateNode(show, mint(n), es[n]);
      assert CreateNodes(show, mint, es) == front + [op];
      ApplyOpsAppend(sha, reg, w, front, [op]);
      InstalledByFold(sha, reg, w, show, mint, es[..n]);
      var before := ApplyOps(sha, reg, w, front).value;
      assert [op][1..] == [];
      assert ApplyOp(sha, reg, before, op).Ok?;
      CreateApplies(sha, reg, before, show, mint(n), es[n]);
      assert ApplyOps(sha, reg, before, [op]).value == ApplyOp(sha, reg, before, op).value;
      hide ApplyOps, Installed;
      InstalledLast(sha, show, mint, es);
      JoinLast(w.objects, Installed(sha, show, mint, es[..n]), ("node", mint(n)), NewObject(sha, NodePayload(show, mint(n), es[n])));
    }
  }

  ghost predicate DistinctIds(mint: Mint, n: nat) {
    forall i, j :: 0 <= i < j < n ==> mint(i) != mint(j)
  }

  lemma {:induction false} InstalledAt(sha: Sha, show: Printer, mint: Mint, es: seq<Element>)
    requires DistinctIds(mint, |es|)
    ensures forall k :: k in Installed(sha, show, mint, es) <==> exists i :: 0 <= i < |es| && k == ("node", mint(i))
    ensures forall i :: 0 <= i < |es| ==> ("node", mint(i)) in Installed(sha, show, mint, es)
    ensures forall i :: 0 <= i < |es| ==>
              Installed(sha, show, mint, es)[("node", mint(i))] == NewObject(sha, NodePayload(show, mint(i), es[i]))
  {
    hide NewObject, NodePayload;
    if es == [] {
    } else {
      InstalledAt(sha, show, mint, es[..|es| - 1]);
    }
  }

  // ---------------------------------------------------------------- reading a node back

  function PutDefinition(g: Gathered, section: Section, pkg: string, name: string, def: Value): Gathered {
    match section
    case EntityType => g.(types := Put(g.types, pkg, name, def))
    case EdgeType => g.(edges := Put(g.edges, pkg, name, def))
    case Struct => g.(structs := Put(g.structs, pkg, name, def))
    case ValidationRule => g.(rules := Push(g.rules, pkg, def))
  }

  function PutImports(g: Gathered, pkg: string, imports: seq<string>): Gathered {
    if imports == [] then g
    else g.(imports := g.imports[pkg := (if pkg in g.imports then g.imports[pkg] else {}) + (set x | x in imports)])
  }

  /** What reading one compiled node adds. */
  function Absorb(g: Gathered, e: Element): Gathered {
    match e
    case Definition(section, pkg, name, def, imports) => PutDefinition(PutImports(g, pkg, imports), section, pkg, name, def)
    case Term(tax, name, parents, status) => g.(terms := Push(g.terms, tax, TermValue(name, parents, status)))
    case Policy(_, _) => g
  }

  function AbsorbAll(es: seq<Element>): Gathered {
    if es == [] then NOTHING else Absorb(AbsorbAll(es[..|es| - 1]), es[|es| - 1])
  }

  /** The element's definition survives printing and parsing. */
  predicate Prints(parse: Parser, show: Printer, e: Element) {
    e.Definition? ==> parse(show(e.def)) == Some(e.def)
  }

  lemma TypeReads(e: Element)
    ensures Bare(ElementType(e) + "@1") == ElementType(e) && IsMetaType(ElementType(e) + "@1")
  {
    var t := ElementType(e);
    assert '@' !in t;
    assert t in META_TYPES;
    BareVersioned(t);
    hide Bare;
  }

  lemma ImportsRead(imports: seq<string>)
    ensures (set x | x in Strings(StrValues(imports))) == set x | x in imports
  {
    var vs := StrValues(imports);
    forall x ensures Str(x) in vs <==> x in imports {
      if x in imports {
        var i :| 0 <= i < |imports| && imports[i] == x;
        assert vs[i] == Str(x);
      }
    }
  }

  lemma ImportsAdded(g: Gathered, attrs: Value, pkg: string, imports: seq<string>)
    requires GetSeq(attrs, "imports") == if imports == [] then None else Some(StrValues(imports))
    ensures AddImports(g.imports, pkg, attrs) == PutImports(g, pkg, imports).imports
  {
    ImportsRead(imports);
    hide StrValues;
  }

  lemma DefinitionAttributes(show: Printer, e: Element)
    requires e.Definition?
    ensures var a := Attributes(show, e);
            && GetStr(a, "name") == Some(e.name) && GetStr(a, "package") == Some(e.pkg) && GetStr(a, "definition") == Some(show(e.def))
            && GetSeq(a, "imports") == (if e.imports == [] then None else Some(StrValues(e.imports)))
  {
    hide StrValues;
  }

  lemma SectionNames()
    ensures MetaTypeOf(EntityType) == "meta/EntityType" && MetaTypeOf(EdgeType) == "meta/EdgeType" && MetaTypeOf(Struct) == "meta/Struct"
    ensures "meta/EntityType" != "meta/EdgeType" && "meta/EdgeType" != "meta/Struct" && "meta/EntityType" != "meta/Struct"
    ensures MetaTypeOf(ValidationRule) !in {"meta/EntityType", "meta/EdgeType", "meta/Struct"}
    ensures "meta/TaxonomyTerm" !in {"meta/EntityType", "meta/EdgeType", "meta/Struct", "meta/ValidationRule"}
  {
    assert |"meta/EntityType"| == 15 && |"meta/EdgeType"| == 13 && |"meta/Struct"| == 11;
    assert |"meta/ValidationRule"| == 19 && |"meta/TaxonomyTerm"| == 17;
  }

  lemma RecordDefinition(parse: Parser, g: Gathered, e: Element, attrs: Value, text: string)
    requires e.Definition? && parse(text) == Some(e.def)
    requires GetStr(attrs, "name") == Some(e.name) && GetStr(attrs, "package") == Some(e.pkg) && GetStr(attrs, "definition") == Some(text)
    requires GetSeq(attrs, "imports") == if e.imports == [] then None else Some(StrValues(e.imports))
    ensures Record(parse, g, MetaTypeOf(e.section), attrs) == Ok(Absorb(g, e))
  {
    SectionNames();
    ImportsAdded(g, attrs, e.pkg, e.imports);
    hide AddImports, StrValues, MetaTypeOf;
  }

  lemma RecordTerm(parse: Parser, g: Gathered, show: Printer, e: Element)
    requires e.Term?
    ensures Record(parse, g, "meta/TaxonomyTerm", Attributes(show, e)) == Ok(Absorb(g, e))
  {
    var a := Attributes(show, e);
    assert GetStr(a, "name") == Some(e.name) && GetStr(a, "taxonomy") == Some(e.tax);
    assert GetSeq(a, "parents") == Some(e.parents) && GetStr(a, "status") == e.status;
    hide Attributes, Meta.Definition, AddImports, TermValue;
    SectionNames();
  }

  lemma RecordAbsorbs(parse: Parser, show: Printer, g: Gathered, e: Element)
    requires Prints(parse, show, e)
    ensures Record(parse, g, ElementType(e), Attributes(show, e)) == Ok(Absorb(g, e))
  {
    hide Record, Absorb, MetaTypeOf;
    match e {
      case Definition(_, _, _, _, _) =>
        DefinitionAttributes(show, e);
        RecordDefinition(parse, g, e, Attributes(show, e), show(e.def));
      case Term(_, _, _, _) =>
        RecordTerm(parse, g, show, e);
      case Policy(_, _) =>
        RecordPolicy(parse, show, g, e);
    }
  }

  lemma RecordPolicy(parse: Parser, show: Printer, g: Gathered, e: Element)
    requires e.Policy?
    ensures Record(parse, g, "meta/Policy", Attributes(show, e)) == Ok(Absorb(g, e))
  {
    hide Record, Attributes;
    PolicyIsNotRecorded(parse, g, Attributes(show, e));
  }

  lemma VisitAbsorbs(parse: Parser, sha: Sha, show: Printer, s: Objects, k: Key, g: Gathered, e: Element)
    requires k in s && k.0 == "node" && s[k] == NewObject(sha, NodePayload(show, k.1, e))
    requires Prints(parse, show, e)
    ensures Visit(parse, s, k, g) == Ok(Absorb(g, e))
  {
    hide Model.RevisionHash;
    var content := NodePayload(show, k.1, e);
    assert GetStr(content, "type") == Some(ElementType(e) + "@1") && AttributesOf(content) == Attributes(show, e);
    hide Attributes, ElementType, Bare, IsMetaType, Record, Absorb, NodePayload;
    TypeReads(e);
    RecordAbsorbs(parse, show, g, e);
  }

  // ---------------------------------------------------------------- nodes are read in the order of their ids

  function Mapped<A, B>(f: A -> B, s: seq<A>): (r: seq<B>)
    ensures |r| == |s|
  {
    seq(|s|, i requires 0 <= i < |s| => f(s[i]))
  }

  lemma MappedAppend<A, B>(f: A -> B, a: seq<A>, b: seq<A>)
    ensures Mapped(f, a + b) == Mapped(f, a) + Mapped(f, b)
  {
  }

  lemma TakeOut<T>(a: seq<T>, x: T, left: seq<T>, right: seq<T>)
    requires a != [] && a[0] == x && multiset(a) == multiset(left + [x] + right)
    ensures multiset(a[1..]) == multiset(left + right)
  {
    assert a == [x] + a[1..];
    var rest := multiset(a[1..]);
    assert multiset(a) == multiset{x} + rest;
    assert multiset(left + [x] + right) == multiset(left) + multiset{x} + multiset(right);
    assert rest == multiset(a) - multiset{x};
    assert multiset(left + right) == multiset(left) + multiset(right);
  }

  lemma MappedAround<A, B>(f: A -> B, left: seq<A>, x: A, right: seq<A>)
    ensures multiset(Mapped(f, left + [x] + right)) == multiset(Mapped(f, left + right)) + multiset{f(x)}
  {
    MappedAppend(f, left + [x], right);
    MappedAppend(f, left, [x]);
    MappedAppend(f, left, right);
    assert Mapped(f, [x]) == [f(x)];
  }

  /** Permuting the arguments permutes the results. */
  lemma {:induction false} MappedPermutes<A, B>(f: A -> B, a: seq<A>, b: seq<A>)
    requires multiset(a) == multiset(b)
    ensures multiset(Mapped(f, a)) == multiset(Mapped(f, b))
    decreases |a|
  {
    if a == [] {
      assert |multiset(b)| == |multiset(a)| == 0;
      assert b == [];
    } else {
      var x := a[0];
      assert x in multiset(a) && x in multiset(b);
      var i :| 0 <= i < |b| && b[i] == x;
      var left, right := b[..i], b[i + 1..];
      assert b == left + [x] + right;
      TakeOut(a, x, left, right);
      hide Mapped;
      MappedPermutes(f, a[1..], left + right);
      MappedAround(f, left, x, right);
      MappedAround(f, [], x, a[1..]);
      assert a == [] + [x] + a[1..] && [] + a[1..] == a[1..];
    }
  }

  lemma {:induction false} DistinctCount<T>(s: seq<T>, x: T)
    requires Distinct(s)
    ensures multiset(s)[x] == if x in s then 1 else 0
  {
    if s == [] {
    } else {
      var init, last := s[..|s| - 1], s[|s| - 1];
      assert s == init + [last];
      DistinctCount(init, x);
    }
  }

  lemma DistinctPermutes<T>(a: seq<T>, b: seq<T>)
    requires Distinct(a) && Distinct(b) && forall x :: x in a <==> x in b
    ensures multiset(a) == multiset(b)
  {
    forall x ensures multiset(a)[x] == multiset(b)[x] {
      DistinctCount(a, x);
      DistinctCount(b, x);
    }
  }

  function MintedKeys(mint: Mint, n: nat): (r: seq<Key>)
    ensures |r| == n
  {
    seq(n, i requires 0 <= i < n => ("node", mint(i)))
  }

  /** The element a key was minted for. */
  ghost function ElementAt(mint: Mint, es: seq<Element>, k: Key): Element {
    if i :| 0 <= i < |es| && k == ("node", mint(i)) then es[i] else Policy("", Null)
  }

  lemma ElementIs(mint: Mint, es: seq<Element>, i: nat)
    requires DistinctIds(mint, |es|) && i < |es|
    ensures ElementAt(mint, es, ("node", mint(i))) == es[i]
  {
  }

  function AbsorbFrom(g: Gathered, es: seq<Element>): Gathered
    decreases |es|
  {
    if es == [] then g else AbsorbFrom(Absorb(g, es[0]), es[1..])
  }

  lemma {:induction false} AbsorbFromAll(a: seq<Element>, b: seq<Element>)
    ensures AbsorbFrom(AbsorbAll(a), b) == AbsorbAll(a + b)
    decreases |b|
  {
    hide Absorb;
    if b == [] {
      assert a + b == a;
    } else {
      assert (a + [b[0]])[..|a|] == a;
      AbsorbFromAll(a + [b[0]], b[1..]);
      assert a + [b[0]] + b[1..] == a + b;
    }
  }

  ghost predicate AllPrint(parse: Parser, show: Printer, es: seq<Element>) {
    forall e :: e in es ==> Prints(parse, show, e)
  }

  lemma VisitElement(parse: Parser, sha: Sha, show: Printer, mint: Mint, es: seq<Element>, k: Key, g: Gathered)
    requires DistinctIds(mint, |es|) && AllPrint(parse, show, es)
    requires k in Installed(sha, show, mint, es)
    ensures Visit(parse, Installed(sha, show, mint, es), k, g) == Ok(Absorb(g, ElementAt(mint, es, k)))
  {
    hide Visit, Absorb, Prints, NewObject, NodePayload, Installed;
    InstalledAt(sha, show, mint, es);
    var i :| 0 <= i < |es| && k == ("node", mint(i));
    ElementIs(mint, es, i);
    assert es[i] in es;
    VisitAbsorbs(parse, sha, show, Installed(sha, show, mint, es), k, g, es[i]);
  }

  lemma MappedCons<A, B>(f: A -> B, s: seq<A>)
    requires s != []
    ensures Mapped(f, s)[0] == f(s[0]) && Mapped(f, s)[1..] == Mapped(f, s[1..])
  {
  }

  lemma {:induction false} GatherAbsorbs(parse: Parser, sha: Sha, show: Printer, mint: Mint, es: seq<Element>, keys: seq<Key>, g: Gathered)
    requires DistinctIds(mint, |es|) && AllPrint(parse, show, es)
    requires forall k :: k in keys ==> k in Installed(sha, show, mint, es)
    ensures Gather(parse, Installed(sha, show, mint, es), keys, g) == Ok(AbsorbFrom(g, Mapped(k => ElementAt(mint, es, k), keys)))
    decreases |keys|
  {
    hide Installed, Visit, Absorb, ElementAt, AllPrint, DistinctIds, Mapped;
    var f := k => ElementAt(mint, es, k);
    if keys == [] {
    } else {
      VisitElement(parse, sha, show, mint, es, keys[0], g);
      var next := Absorb(g, ElementAt(mint, es, keys[0]));
      GatherAbsorbs(parse, sha, show, mint, es, keys[1..], next);
      MappedCons(f, keys);
    }
  }

  lemma MintedDistinct(mint: Mint, n: nat)
    requires DistinctIds(mint, n)
    ensures Distinct(MintedKeys(mint, n))
    ensures forall k :: k in MintedKeys(mint, n) <==> exists i :: 0 <= i < n && k == ("node", mint(i))
  {
    var minted := MintedKeys(mint, n);
    forall i, j | 0 <= i < j < n ensures minted[i] != minted[j] {
      assert mint(i) != mint(j);
    }
    forall i | 0 <= i < n ensures ("node", mint(i)) in minted {
      assert minted[i] == ("node", mint(i));
    }
  }

  lemma OrderIsDistinct(keys: set<Key>)
    ensures Distinct(InOrder(keys))
  {
    BeforeIsOrder();
    hide Before;
    AscendingDistinct(Before, InOrder(keys));
  }

  lemma MintedPermute(sha: Sha, show: Printer, mint: Mint, es: seq<Element>)
    requires DistinctIds(mint, |es|)
    ensures multiset(InOrder(Installed(sha, show, mint, es).Keys)) == multiset(MintedKeys(mint, |es|))
  {
    var keys := Installed(sha, show, mint, es).Keys;
    InstalledAt(sha, show, mint, es);
    MintedDistinct(mint, |es|);
    OrderIsDistinct(keys);
    hide Before, Installed, NewObject, NodePayload, MintedKeys, DistinctIds, Distinct, InOrder;
    DistinctPermutes(InOrder(keys), MintedKeys(mint, |es|));
  }

  lemma MintedElements(mint: Mint, es: seq<Element>)
    requires DistinctIds(mint, |es|)
    ensures Mapped(k => ElementAt(mint, es, k), MintedKeys(mint, |es|)) == es
  {
    hide ElementAt;
    forall i | 0 <= i < |es| ensures ElementAt(mint, es, MintedKeys(mint, |es|)[i]) == es[i] {
      ElementIs(mint, es, i);
    }
  }

  lemma AbsorbFromNothing(es: seq<Element>)
    ensures AbsorbFrom(NOTHING, es) == AbsorbAll(es)
  {
    hide Absorb;
    AbsorbFromAll([], es);
    assert [] + es == es;
  }

  /** The derived registry is assembled from the elements, in the order of their ids. */
  lemma ReadBack(parse: Parser, sha: Sha, show: Printer, mint: Mint, es: seq<Element>) returns (read: seq<Element>)
    requires DistinctIds(mint, |es|) && AllPrint(parse, show, es)
    ensures multiset(read) == multiset(es)
    ensures read == Mapped(k => ElementAt(mint, es, k), InOrder(Installed(sha, show, mint, es).Keys))
    ensures FromState(parse, Installed(sha, show, mint, es)) == Ok(Assemble(AbsorbAll(read)))
  {
    hide Absorb, AbsorbAll, AbsorbFrom, Assemble, InOrder, ElementAt, Installed, DistinctIds, AllPrint, Gather, Mapped, MintedKeys;
    var keys := InOrder(Installed(sha, show, mint, es).Keys);
    var f := k => ElementAt(mint, es, k);
    read := Mapped(f, keys);
    GatherAbsorbs(parse, sha, show, mint, es, keys, NOTHING);
    MintedPermute(sha, show, mint, es);
    MappedPermutes(f, keys, MintedKeys(mint, |es|));
    MintedElements(mint, es);
    AbsorbFromNothing(read);
  }
}
