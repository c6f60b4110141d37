/** Materialized state: objects keyed by kind and logical id (crates/allod-core/src/fold.rs:17-125). */
module Objects {
  import opened Text
  import opened Values
  import opened Order

  /** A key of the state tree: kind, then logical id. */
  type Key = (string, string)

  datatype Obj = Obj(content: Value, rev: string, deleted: bool, redacted: bool)

  type Objects = map<Key, Obj>

  /** Tuple order over strings. */
  predicate Before(a: Key, b: Key) {
    StringLess(a.0, b.0) || (a.0 == b.0 && StringLess(a.1, b.1))
  }

  lemma BeforeIsOrder()
    ensures StrictOrder(Before)
  {
    StringLessIsOrder();
    hide StringLess;
    forall a: Key, b: Key, c: Key | Before(a, b) && Before(b, c) ensures Before(a, c) {
    }
  }

  /** The keys in state-tree order. */
  function InOrder(keys: set<Key>): (r: seq<Key>)
    ensures forall k :: k in r <==> k in keys
    ensures |r| == |keys|
    ensures Ascending(Before, r)
  {
    BeforeIsOrder();
    Enumerate(Before, keys)
  }

  function GetLive(s: Objects, kind: string, id: string): Option<Obj> {
    if (kind, id) in s && !s[(kind, id)].deleted then Some(s[(kind, id)]) else None
  }

  /** Resolve a reference like `node:<id>` to a live object. */
  function ResolveRef(s: Objects, reference: string): Option<(string, Obj)> {
    match SplitOnce(reference, ':')
    case None => None
    case Some((kind, id)) =>
      match GetLive(s, kind, id)
      case None => None
      case Some(o) => Some((kind, o))
  }

  predicate LiveOfKind(s: Objects, k: Key, kind: string) {
    k in s && k.0 == kind && !s[k].deleted
  }

  function TermsOf(s: Objects, keys: seq<Key>, reference: string): seq<string> {
    if keys == [] then []
    else
      var rest := TermsOf(s, keys[1..], reference);
      if LiveOfKind(s, keys[0], "classification") && GetStr(s[keys[0]].content, "subject") == Some(reference) then
        match GetStr(s[keys[0]].content, "term")
        case Some(t) => [t] + rest
        case None => rest
      else rest
  }

  /** Live classification terms whose subject is `reference`. */
  function ClassificationsOf(s: Objects, reference: string): seq<string> {
    TermsOf(s, InOrder(s.Keys), reference)
  }

  function PrincipalKind(bareType: string): Option<string> {
    if bareType == "core/User" then Some("user")
    else if bareType == "core/Agent" then Some("agent")
    else if bareType == "core/Service" then Some("service")
    else None
  }

  function AttributesOf(content: Value): Value {
    Get(content, "attributes").GetOr(Null)
  }

  /** Whether a live node is a principal with this display name. */
  predicate IsPrincipal(s: Objects, k: Key, name: string) {
    && LiveOfKind(s, k, "node")
    && PrincipalKind(Bare(GetStr(s[k].content, "type").GetOr(""))).Some?
    && GetStr(AttributesOf(s[k].content), "display_name") == Some(name)
  }

  function FirstPrincipal(s: Objects, keys: seq<Key>, name: string): Option<Key> {
    if keys == [] then None
    else if IsPrincipal(s, keys[0], name) then Some(keys[0])
    else FirstPrincipal(s, keys[1..], name)
  }

  /** The first principal object, in state order, that a `principal:<name>` reference names. */
  function FindPrincipal(s: Objects, reference: string): Option<Key> {
    match StripPrefix(reference, "principal:")
    case None => None
    case Some(name) => FirstPrincipal(s, InOrder(s.Keys), name)
  }

  /** The principal found is the first of the keys that has the name; none is found only when none has it. */
  lemma {:induction false} FirstPrincipalIs(s: Objects, keys: seq<Key>, name: string)
    ensures FirstPrincipal(s, keys, name).Some? <==> exists k :: k in keys && IsPrincipal(s, k, name)
    ensures FirstPrincipal(s, keys, name).Some? ==>
              exists i :: 0 <= i < |keys| && keys[i] == FirstPrincipal(s, keys, name).value
                       && IsPrincipal(s, keys[i], name) && forall j :: 0 <= j < i ==> !IsPrincipal(s, keys[j], name)
  {
    hide IsPrincipal;
    if keys == [] {
    } else if IsPrincipal(s, keys[0], name) {
      assert keys[0] in keys;
    } else {
      var rest := keys[1..];
      FirstPrincipalIs(s, rest, name);
      assert keys == [keys[0]] + rest;
      if FirstPrincipal(s, rest, name).Some? {
        var i :| 0 <= i < |rest| && rest[i] == FirstPrincipal(s, rest, name).value
                 && IsPrincipal(s, rest[i], name) && forall j :: 0 <= j < i ==> !IsPrincipal(s, rest[j], name);
        assert keys[i + 1] == rest[i];
        assert forall j :: 0 < j < i + 1 ==> keys[j] == rest[j - 1];
      }
    }
  }

  lemma FindsFirst(s: Objects, name: string)
    ensures FindPrincipal(s, "principal:" + name) == FirstPrincipal(s, InOrder(s.Keys), name)
  {
    hide FirstPrincipal, InOrder;
    assert ("principal:" + name)[|"principal:"|..] == name;
  }

  /** A reference names the least principal, in state order, of that display name. */
  lemma FindPrincipalIs(s: Objects, name: string)
    ensures var found := FindPrincipal(s, "principal:" + name);
            && (found.Some? <==> exists k :: k in s && IsPrincipal(s, k, name))
            && (found.Some? ==> found.value in s && IsPrincipal(s, found.value, name)
                                && forall k :: k in s && IsPrincipal(s, k, name) ==> k == found.value || Before(found.value, k))
  {
    FindsFirst(s, name);
    hide IsPrincipal, Before, FindPrincipal, FirstPrincipal;
    var keys := InOrder(s.Keys);
    FirstPrincipalIs(s, keys, name);
    var found := FirstPrincipal(s, keys, name);
    if found.Some? {
      var i :| 0 <= i < |keys| && keys[i] == found.value && forall j :: 0 <= j < i ==> !IsPrincipal(s, keys[j], name);
      forall k | k in s && IsPrincipal(s, k, name) ensures k == found.value || Before(found.value, k) {
        var j :| 0 <= j < |keys| && keys[j] == k;
      }
    }
  }

  lemma {:induction false} TermsOfMember(s: Objects, keys: seq<Key>, reference: string, t: string)
    ensures t in TermsOf(s, keys, reference) <==>
            exists k :: k in keys && LiveOfKind(s, k, "classification")
                     && GetStr(s[k].content, "subject") == Some(reference) && GetStr(s[k].content, "term") == Some(t)
  {
    if keys == [] {
    } else {
      TermsOfMember(s, keys[1..], reference, t);
      assert keys == [keys[0]] + keys[1..];
      assert keys[0] in keys;
    }
  }
}
