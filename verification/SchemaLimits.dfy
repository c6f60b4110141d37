/**
 * When compiling documents loses something (crates/allod-core/src/schemaops.rs:70-194): a document
 * without elements leaves no node behind, a document whose ontology is not a string is compiled though
 * it is not loaded, and of a term stated twice the nodes do not say which came last.
 */
module SchemaLimits {
  import opened Text
  import opened Values
  import opened Order
  import opened Hashing
  import opened Objects
  import opened Registries
  import opened Meta
  import Model
  import opened SchemaOps
  import opened SchemaProjection
  import opened SchemaCompilation
  import opened SchemaReadBack

  // ---------------------------------------------------------------- both registries

  lemma Loaded(docs: seq<Named>) returns (all: seq<Value>)
    requires OneOwner(docs)
    ensures Loads(docs, all) && LoadDocs(docs) == RegisterAll(all)
    ensures forall d :: d in docs ==> d.1 in all
  {
    hide OneOwner, RegisterAll, Buckets, FirstNames;
    all := Buckets(docs, FirstNames(docs));
    GroupedMembers(docs);
    forall d | d in docs ensures d.1 in all {
      assert (d.0, d.1) in docs;
    }
  }

  lemma Assembled(g: Gathered)
    ensures forall p :: p in Assemble(g).packages <==> p == "meta" || p in PackageNames(g)
    ensures "meta" !in PackageNames(g) ==> Assemble(g).packages["meta"] == META_PACKAGE
    ensures forall t :: t in Assemble(g).taxonomies <==> t in g.terms
    ensures forall t :: t in g.terms ==> Assemble(g).taxonomies[t] == Taxonomy(TermMap(g.terms[t]))
  {
    hide PackageNames, AssemblePackage, TermMap;
  }

  /** What the nodes hold of one owner, for the one document that declares it. */
  lemma ReadShare(parse: Parser, sha: Sha, show: Printer, mint: Mint, docs: seq<Named>, policy: Option<Value>, d: Named)
    returns (read: seq<Element>)
    requires OneOwner(docs) && d in docs && DocOwner(d.1) != Nobody
    requires DistinctIds(mint, |Elements(docs, policy)|) && AllPrint(parse, show, Elements(docs, policy))
    ensures FromState(parse, Installed(sha, show, mint, Elements(docs, policy))) == Ok(Assemble(AbsorbAll(read)))
    ensures multiset(Owned(read, DocOwner(d.1))) == multiset(DocElements(d.1))
    ensures Owned(read, DocOwner(d.1)) == [] <==> DocElements(d.1) == []
    ensures read == Mapped(k => ElementAt(mint, Elements(docs, policy), k), InOrder(Installed(sha, show, mint, Elements(docs, policy)).Keys))
  {
    hide OneOwner, DocOwner, Elements, DocElements, DistinctIds, AllPrint, FromState, Installed, Assemble, AbsorbAll, Owned, InOrder, ElementAt, Mapped;
    read := ReadBack(parse, sha, show, mint, Elements(docs, policy));
    OwnedOf(docs, policy, read, DocOwner(d.1));
    assert |multiset(Owned(read, DocOwner(d.1)))| == |multiset(DocElements(d.1))|;
  }

  // ---------------------------------------------------------------- documents without elements

  /** A package whose document has no elements is loaded, but is not there when the compiled nodes are read back. */
  lemma EmptyPackageIsLost(parse: Parser, sha: Sha, show: Printer, mint: Mint, docs: seq<Named>, policy: Option<Value>, d: Named, pkg: string)
    requires OneOwner(docs) && d in docs && DocOwner(d.1) == Pkg(pkg) && DocElements(d.1) == []
    requires pkg != "meta"
    requires DistinctIds(mint, |Elements(docs, policy)|) && AllPrint(parse, show, Elements(docs, policy))
    ensures pkg in LoadDocs(docs).packages
    ensures FromState(parse, Installed(sha, show, mint, Elements(docs, policy))).Ok?
    ensures pkg !in FromState(parse, Installed(sha, show, mint, Elements(docs, policy))).value.packages
  {
    hide OneOwner, DocOwner, Owned, Elements, DocElements, LoadDocs, Loads, DistinctIds, AllPrint, FromState, Installed, AbsorbAll, Assemble, PackageNames,
         RegisterAll, PackageOf, InOrder, ElementAt, Mapped;
    var all := Loaded(docs);
    PackageFrom(docs, all, pkg);
    var read := ReadShare(parse, sha, show, mint, docs, policy, d);
    PackagesAbsorbed(read, pkg);
    Assembled(AbsorbAll(read));
  }

  /** The same for a taxonomy without named terms. */
  lemma EmptyTaxonomyIsLost(parse: Parser, sha: Sha, show: Printer, mint: Mint, docs: seq<Named>, policy: Option<Value>, d: Named, tax: string)
    requires OneOwner(docs) && d in docs && DocOwner(d.1) == Tax(tax) && !Misnamed(d.1) && DocElements(d.1) == []
    requires DistinctIds(mint, |Elements(docs, policy)|) && AllPrint(parse, show, Elements(docs, policy))
    ensures tax in LoadDocs(docs).taxonomies
    ensures FromState(parse, Installed(sha, show, mint, Elements(docs, policy))).Ok?
    ensures tax !in FromState(parse, Installed(sha, show, mint, Elements(docs, policy))).value.taxonomies
  {
    hide OneOwner, DocOwner, Owned, Elements, DocElements, LoadDocs, Loads, DistinctIds, AllPrint, FromState, Installed, AbsorbAll, Assemble, PackageNames,
         RegisterAll, TaxonomyOf, Misnamed, InOrder, ElementAt, Mapped, TermMap;
    var all := Loaded(docs);
    TaxonomyFrom(docs, all, tax);
    var read := ReadShare(parse, sha, show, mint, docs, policy, d);
    TermsAbsorbed(read, tax);
    Assembled(AbsorbAll(read));
  }

  lemma EmptySection(doc: Value)
    requires DocOwner(doc) == Pkg("meta") && DocElements(doc) == []
    ensures SectionMap(PackageSection(PackageOf(doc), EntityType)) != SectionMap(PackageSection(META_PACKAGE, EntityType))
  {
    DocSlot(doc, "meta", EntityType, "EntityType");
    hide DocOwner, DocElements, PackageOf, ELEMENT, TERM, POLICY;
    assert "EntityType" in SectionMap(PackageSection(META_PACKAGE, EntityType));
  }

  /** An empty document for the meta package replaces the seeded one when it is loaded, and not when it is compiled. */
  lemma EmptyMetaIsLost(parse: Parser, sha: Sha, show: Printer, mint: Mint, docs: seq<Named>, policy: Option<Value>, d: Named)
    requires OneOwner(docs) && d in docs && DocOwner(d.1) == Pkg("meta") && DocElements(d.1) == []
    requires DistinctIds(mint, |Elements(docs, policy)|) && AllPrint(parse, show, Elements(docs, policy))
    ensures !RoundTrips(parse, sha, show, mint, docs, policy)
  {
    hide OneOwner, DocOwner, Owned, Elements, DocElements, LoadDocs, Loads, DistinctIds, AllPrint, FromState, Installed, AbsorbAll, Assemble, PackageNames,
         RegisterAll, PackageOf, PackageSection, SectionMap, ListOf, META_PACKAGE, InOrder, ElementAt, Mapped;
    EmptySection(d.1);
    var all := Loaded(docs);
    PackageFrom(docs, all, "meta");
    var read := ReadShare(parse, sha, show, mint, docs, policy, d);
    PackagesAbsorbed(read, "meta");
    Assembled(AbsorbAll(read));
    assert EntityType != ValidationRule;
  }

  // ---------------------------------------------------------------- documents that are not loaded

  /** A taxonomy under a document whose ontology is not a string is not loaded, but its terms are compiled. */
  lemma StrayTermsAppear(parse: Parser, sha: Sha, show: Printer, mint: Mint, docs: seq<Named>, policy: Option<Value>, d: Named) returns (tax: string)
    requires OneOwner(docs) && d in docs && Misnamed(d.1) && DocElements(d.1) != []
    requires DistinctIds(mint, |Elements(docs, policy)|) && AllPrint(parse, show, Elements(docs, policy))
    ensures tax !in LoadDocs(docs).taxonomies
    ensures FromState(parse, Installed(sha, show, mint, Elements(docs, policy))).Ok?
    ensures tax in FromState(parse, Installed(sha, show, mint, Elements(docs, policy))).value.taxonomies
  {
    assert DocOwner(d.1).Tax? by {
      hide TermElements;
    }
    tax := DocOwner(d.1).tax;
    hide OneOwner, DocOwner, Owned, Elements, DocElements, LoadDocs, DistinctIds, AllPrint, FromState, Installed, AbsorbAll, Assemble, PackageNames,
         RegisterAll, TaxonomyOf, Misnamed, InOrder, ElementAt, Mapped, TermMap;
    var all := Loaded(docs);
    TaxonomyFrom(docs, all, tax);
    forall v | v in all && DocOwner(v) == Tax(tax) ensures v == d.1 {
      assert (d.0, d.1) in docs;
      assert Filed(docs, d.1);
      SoleOwner(docs, v, d.1);
    }
    var read := ReadShare(parse, sha, show, mint, docs, policy, d);
    TermsAbsorbed(read, tax);
    Assembled(AbsorbAll(read));
  }

  // ---------------------------------------------------------------- terms stated twice

  /** Distinct ids of which the m-th is the greatest. */
  function Late(m: nat): Mint {
    (i: nat) => if i == m then "b" else seq(i + 1, _ => 'a')
  }

  lemma LateIsDistinct(m: nat, n: nat)
    ensures DistinctIds(Late(m), n)
  {
    forall i, j | 0 <= i < j < n ensures Late(m)(i) != Late(m)(j) {
      assert i != m ==> |Late(m)(i)| == i + 1 && Late(m)(i)[0] == 'a';
      assert j != m ==> |Late(m)(j)| == j + 1 && Late(m)(j)[0] == 'a';
    }
  }

  lemma LateIsGreatest(m: nat, i: nat)
    requires i != m
    ensures Before(("node", Late(m)(i)), ("node", Late(m)(m)))
  {
    var id := Late(m)(i);
    assert id[0] == 'a' && "b"[0] == 'b';
    assert LexLess(CharLess, id, "b");
  }

  lemma GreatestIsLast(keys: set<Key>, k: Key)
    requires k in keys && forall l :: l in keys && l != k ==> Before(l, k)
    ensures var s := InOrder(keys); s != [] && s[|s| - 1] == k
  {
    BeforeIsOrder();
    hide Before, InOrder;
    var s := InOrder(keys);
    var p :| 0 <= p < |s| && s[p] == k;
    var last := s[|s| - 1];
    assert last in s;
    assert p < |s| - 1 ==> Before(k, last);
  }

  /** Under these ids the m-th element is read last. */
  lemma LateIsLast(sha: Sha, show: Printer, es: seq<Element>, m: nat)
    requires m < |es|
    ensures var keys := InOrder(Installed(sha, show, Late(m), es).Keys);
            keys != [] && ElementAt(Late(m), es, keys[|keys| - 1]) == es[m]
  {
    hide Late, Installed, InOrder, ElementAt, DistinctIds, NodePayload, Before, Model.RevisionHash;
    LateIsDistinct(m, |es|);
    InstalledAt(sha, show, Late(m), es);
    ElementIs(Late(m), es, m);
    var keys, k := Installed(sha, show, Late(m), es).Keys, ("node", Late(m)(m));
    forall l | l in keys && l != k ensures Before(l, k) {
      var i :| 0 <= i < |es| && l == ("node", Late(m)(i));
      LateIsGreatest(m, i);
    }
    GreatestIsLast(keys, k);
  }

  lemma {:induction false} NamedTerm(terms: seq<Value>, t: Value, name: string)
    requires t in terms && GetStr(t, "name") == Some(name)
    ensures name in TermMap(terms)
  {
    hide TermParents, GetStr;
    var init, last := terms[..|terms| - 1], terms[|terms| - 1];
    assert terms == init + [last];
    if t == last {
    } else {
      NamedTerm(init, t, name);
    }
  }

  /** Of terms that disagree, one has other parents than the term map gives the name. */
  lemma OtherParents(terms: seq<Value>) returns (t: Value)
    requires !TermsAgree(terms)
    ensures t in terms && GetStr(t, "name").Some?
    ensures GetStr(t, "name").value in TermMap(terms) && TermMap(terms)[GetStr(t, "name").value] != TermParents(t)
  {
    hide TermParents, GetStr, TermMap;
    var x, y :| x in terms && y in terms && GetStr(x, "name").Some? && GetStr(x, "name") == GetStr(y, "name") && TermParents(x) != TermParents(y);
    NamedTerm(terms, x, GetStr(x, "name").value);
    t := if TermMap(terms)[GetStr(x, "name").value] != TermParents(x) then x else y;
  }

  /** The term read last decides. */
  lemma LastTermDecides(read: seq<Element>, tax: string)
    requires read != [] && OwnerOf(read[|read| - 1]) == Tax(tax)
    ensures var g, e := AbsorbAll(read), read[|read| - 1];
            tax in g.terms && e.name in TermMap(g.terms[tax]) && TermMap(g.terms[tax])[e.name] == Strings(e.parents)
  {
    var e := read[|read| - 1];
    TermsAbsorbed(read, tax);
    TermValueReads(e.name, e.parents, e.status);
    assert OwnerOf(e) == Tax(tax) ==> e.Term?;
    hide AbsorbAll, TermValue, OwnerOf, TermParents;
    TermValuesSnoc(Owned(read[..|read| - 1], Tax(tax)), e);
    var vs := TermValues(Owned(read, Tax(tax)));
    assert vs[|vs| - 1] == TermValue(e.name, e.parents, e.status);
  }

  lemma {:induction false} HasElements(docs: seq<Named>, d: Named, e: Element)
    requires d in docs && e in DocElements(d.1)
    ensures e in DocsElements(docs)
  {
    hide DocElements;
    var init, last := docs[..|docs| - 1], docs[|docs| - 1];
    assert docs == init + [last];
    if d == last {
    } else {
      HasElements(init, d, e);
    }
  }

  lemma TaxonomyElements(doc: Value, tax: string)
    requires DocOwner(doc) == Tax(tax)
    ensures DocElements(doc) == TermElements(tax, GetSeq(doc, "terms").GetOr([]))
  {
    hide TermElements;
  }

  /** An element of the taxonomy that has other parents than the term map gives its name. */
  lemma OtherElement(doc: Value, tax: string) returns (e: Element)
    requires DocOwner(doc) == Tax(tax) && !TermsAgree(GetSeq(doc, "terms").GetOr([]))
    ensures e in DocElements(doc) && OwnerOf(e) == Tax(tax)
    ensures e.name in TaxonomyOf(doc).terms && TaxonomyOf(doc).terms[e.name] != Strings(e.parents)
  {
    hide TermElements, TermMap, DocElements, DocOwner, TermsAgree, GetStr, GetSeq, TermParents, OwnerOf;
    var terms := GetSeq(doc, "terms").GetOr([]);
    TaxonomyElements(doc, tax);
    DocElementsOwner(doc);
    var t := OtherParents(terms);
    e := ElementFor(tax, terms, t);
  }

  lemma PlaceOf(docs: seq<Named>, policy: Option<Value>, d: Named, e: Element) returns (m: nat)
    requires d in docs && e in DocElements(d.1)
    ensures m < |Elements(docs, policy)| && Elements(docs, policy)[m] == e
  {
    hide DocElements, DocsElements, PolicyElements;
    HasElements(docs, d, e);
    var es := Elements(docs, policy);
    assert e in es;
    m :| 0 <= m < |es| && es[m] == e;
  }

  lemma ReadLast(sha: Sha, show: Printer, es: seq<Element>, m: nat)
    requires m < |es|
    ensures var read := Mapped(k => ElementAt(Late(m), es, k), InOrder(Installed(sha, show, Late(m), es).Keys));
            read != [] && read[|read| - 1] == es[m]
  {
    hide Late, Installed, InOrder, ElementAt;
    LateIsLast(sha, show, es, m);
  }

  /** A term stated twice with other parents is read back wrong, under ids that put such a statement last. */
  lemma TermIsLost(parse: Parser, sha: Sha, show: Printer, docs: seq<Named>, policy: Option<Value>, d: Named, tax: string)
    returns (m: nat, name: string)
    requires OneOwner(docs) && d in docs && DocOwner(d.1) == Tax(tax) && !Misnamed(d.1)
    requires !TermsAgree(GetSeq(d.1, "terms").GetOr([])) && AllPrint(parse, show, Elements(docs, policy))
    ensures DistinctIds(Late(m), |Elements(docs, policy)|)
    ensures tax in LoadDocs(docs).taxonomies && name in LoadDocs(docs).taxonomies[tax].terms
    ensures var r := FromState(parse, Installed(sha, show, Late(m), Elements(docs, policy)));
            && r.Ok? && tax in r.value.taxonomies && name in r.value.taxonomies[tax].terms
            && r.value.taxonomies[tax].terms[name] != LoadDocs(docs).taxonomies[tax].terms[name]
  {
    hide *;
    var e := OtherElement(d.1, tax);
    m := PlaceOf(docs, policy, d, e);
    name := e.name;
    LateIsDistinct(m, |Elements(docs, policy)|);
    ReadLast(sha, show, Elements(docs, policy), m);
    var all := Loaded(docs);
    TaxonomyFrom(docs, all, tax);
    var read := ReadShare(parse, sha, show, Late(m), docs, policy, d);
    LastTermDecides(read, tax);
    Assembled(AbsorbAll(read));
  }

  // ---------------------------------------------------------------- exactly when

  /** A document that does not survive breaks the round trip under some distinct ids. */
  lemma LostDocument(parse: Parser, sha: Sha, show: Printer, docs: seq<Named>, policy: Option<Value>, d: Named) returns (mint: Mint)
    requires OneOwner(docs) && d in docs && !Survives(d.1) && AllPrint(parse, show, Elements(docs, policy))
    ensures DistinctIds(mint, |Elements(docs, policy)|) && !RoundTrips(parse, sha, show, mint, docs, policy)
  {
    hide OneOwner, DocOwner, Elements, DocElements, LoadDocs, DistinctIds, AllPrint, FromState, Installed, Misnamed, Late, TermsAgree, SamePackage;
    mint := Late(0);
    LateIsDistinct(0, |Elements(docs, policy)|);
    if Misnamed(d.1) {
      var tax := StrayTermsAppear(parse, sha, show, mint, docs, policy, d);
    } else if DocElements(d.1) == [] {
      match DocOwner(d.1) {
        case Pkg(pkg) =>
          if pkg == "meta" {
            EmptyMetaIsLost(parse, sha, show, mint, docs, policy, d);
          } else {
            EmptyPackageIsLost(parse, sha, show, mint, docs, policy, d, pkg);
          }
        case Tax(tax) => EmptyTaxonomyIsLost(parse, sha, show, mint, docs, policy, d, tax);
        case Nobody => OwnerlessSurvives(d.1);
      }
    } else {
      DisagreeingTaxonomy(d.1);
      var m, name := TermIsLost(parse, sha, show, docs, policy, d, DocOwner(d.1).tax);
      mint := Late(m);
    }
  }

  lemma OwnerlessSurvives(doc: Value)
    requires DocOwner(doc) == Nobody && !Misnamed(doc)
    ensures Survives(doc)
  {
    hide TermsAgree;
  }

  lemma DisagreeingTaxonomy(doc: Value)
    requires !Survives(doc) && !Misnamed(doc) && DocElements(doc) != []
    ensures DocOwner(doc).Tax? && !TermsAgree(GetSeq(doc, "terms").GetOr([]))
  {
    hide TermsAgree, DocElements;
  }

  /**
   * Documents that each declare their own package or taxonomy survive being compiled and read back,
   * whatever ids their nodes get, exactly when each has elements if it is loaded and none if it is not,
   * and no taxonomy states a term twice with other parents.
   */
  lemma ReadsBackExactly(parse: Parser, sha: Sha, show: Printer, docs: seq<Named>, policy: Option<Value>)
    requires OneOwner(docs) && AllPrint(parse, show, Elements(docs, policy))
    ensures (forall mint: Mint :: DistinctIds(mint, |Elements(docs, policy)|) ==> RoundTrips(parse, sha, show, mint, docs, policy))
         <==> forall d :: d in docs ==> Survives(d.1)
  {
    hide OneOwner, Elements, DistinctIds, AllPrint, RoundTrips, Survives;
    if forall d :: d in docs ==> Survives(d.1) {
      forall mint: Mint | DistinctIds(mint, |Elements(docs, policy)|) ensures RoundTrips(parse, sha, show, mint, docs, policy) {
        CompiledReadsBack(parse, sha, show, mint, docs, policy);
      }
    } else {
      var d :| d in docs && !Survives(d.1);
      var mint := LostDocument(parse, sha, show, docs, policy, d);
    }
  }
}
