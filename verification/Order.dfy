/** Strict total orders and the ascending enumeration of a finite set, the iteration order of a BTreeMap. */
module Order {

  ghost predicate StrictOrder<T(!new)>(less: (T, T) -> bool) {
    && (forall x :: !less(x, x))
    && (forall x, y, z :: less(x, y) && less(y, z) ==> less(x, z))
    && (forall x, y :: x != y ==> less(x, y) || less(y, x))
  }

  ghost predicate Ascending<T>(less: (T, T) -> bool, s: seq<T>) {
    forall i, j :: 0 <= i < j < |s| ==> less(s[i], s[j])
  }

  /** Lexicographic order of sequences, as Rust compares `String` and `Vec<u8>`. */
  predicate LexLess<T(==)>(less: (T, T) -> bool, a: seq<T>, b: seq<T>) {
    if b == [] then false
    else if a == [] then true
    else less(a[0], b[0]) || (a[0] == b[0] && LexLess(less, a[1..], b[1..]))
  }

  lemma {:induction false} LexTransitive<T(!new)>(less: (T, T) -> bool, a: seq<T>, b: seq<T>, c: seq<T>)
    requires StrictOrder(less)
    requires LexLess(less, a, b) && LexLess(less, b, c)
    ensures LexLess(less, a, c)
  {
    if a != [] && !less(a[0], b[0]) && !less(b[0], c[0]) {
      LexTransitive(less, a[1..], b[1..], c[1..]);
    }
  }

  lemma {:induction false} LexTotal<T(!new)>(less: (T, T) -> bool, a: seq<T>, b: seq<T>)
    requires StrictOrder(less)
    ensures !LexLess(less, a, a)
    ensures a != b ==> LexLess(less, a, b) || LexLess(less, b, a)
  {
    if a == [] {
    } else {
      LexTotal(less, a[1..], if b == [] then [] else b[1..]);
    }
    if a != [] && b != [] && a[0] == b[0] && a != b {
      assert a == [a[0]] + a[1..] && b == [b[0]] + b[1..];
    }
  }

  predicate Least<T(==)>(less: (T, T) -> bool, s: set<T>, m: T) {
    m in s && forall x :: x in s && x != m ==> less(m, x)
  }

  lemma LeastExists<T(!new)>(less: (T, T) -> bool, s: set<T>)
    requires StrictOrder(less)
    requires s != {}
    ensures exists m :: Least(less, s, m)
  {
    var m :| m in s;
    var rest := s - {m};
    assert s == rest + {m};
    if rest == {} {
      assert Least(less, s, m);
    } else {
      LeastExists(less, rest);
      var n :| Least(less, rest, n);
      assert Least(less, s, if less(n, m) then n else m);
    }
  }

  /** The elements of a finite set in ascending order. */
  function Enumerate<T(==, !new)>(less: (T, T) -> bool, s: set<T>): (r: seq<T>)
    requires StrictOrder(less)
    ensures Ascending(less, r)
    ensures forall x :: x in r <==> x in s
    ensures |r| == |s|
    decreases |s|
  {
    if s == {} then []
    else
      LeastExists(less, s);
      var m :| m in s && Least(less, s, m);
      var rest := Enumerate(less, s - {m});
      [m] + rest
  }

  /** An ascending enumeration is determined by its set of elements. */
  lemma {:induction false} AscendingUnique<T(!new)>(less: (T, T) -> bool, a: seq<T>, b: seq<T>)
    requires StrictOrder(less)
    requires Ascending(less, a) && Ascending(less, b)
    requires forall x :: x in a <==> x in b
    ensures a == b
  {
    if a == [] {
      assert forall k :: 0 <= k < |b| ==> b[k] in b;
    } else {
      assert a[0] in b && b != [] && b[0] in a;
      assert a[0] == b[0] by {
        var i :| 0 <= i < |b| && b[i] == a[0];
        var j :| 0 <= j < |a| && a[j] == b[0];
        assert forall k :: 0 < k < |b| ==> less(b[0], b[k]);
        assert forall k :: 0 < k < |a| ==> less(a[0], a[k]);
      }
      forall x ensures x in a[1..] <==> x in b[1..] {
        if x in a[1..] {
          assert x in b && x != a[0];
        }
        if x in b[1..] {
          assert x in a && x != b[0];
        }
      }
      AscendingUnique(less, a[1..], b[1..]);
    }
  }

  lemma AscendingDistinct<T(!new)>(less: (T, T) -> bool, a: seq<T>)
    requires StrictOrder(less)
    requires Ascending(less, a)
    ensures forall i, j :: 0 <= i < j < |a| ==> a[i] != a[j]
  {
  }

  // ---------------------------------------------------------------- stable sorting

  /** Insert after everything that does not come later. */
  function Insert<T(!new)>(less: (T, T) -> bool, s: seq<T>, x: T): (r: seq<T>)
    ensures |r| == |s| + 1
    ensures forall y :: y in r <==> y == x || y in s
  {
    if s != [] && less(x, s[|s| - 1]) then
      assert s == s[..|s| - 1] + [s[|s| - 1]];
      Insert(less, s[..|s| - 1], x) + [s[|s| - 1]]
    else s + [x]
  }

  /** A stable sort, like the program's `sort_by`. */
  function Sorted<T(!new)>(less: (T, T) -> bool, s: seq<T>): (r: seq<T>)
    ensures |r| == |s|
    ensures forall y :: y in r <==> y in s
  {
    if s == [] then []
    else
      assert s == s[..|s| - 1] + [s[|s| - 1]];
      Insert(less, Sorted(less, s[..|s| - 1]), s[|s| - 1])
  }

  lemma {:induction false} InsertMembers<T(!new)>(less: (T, T) -> bool, s: seq<T>, x: T)
    ensures multiset(Insert(less, s, x)) == multiset(s) + multiset{x}
  {
    if s != [] && less(x, s[|s| - 1]) {
      InsertMembers(less, s[..|s| - 1], x);
      assert s == s[..|s| - 1] + [s[|s| - 1]];
    }
  }

  lemma LastSplits<T>(s: seq<T>)
    requires s != []
    ensures multiset(s) == multiset(s[..|s| - 1]) + multiset{s[|s| - 1]}
  {
    assert s == s[..|s| - 1] + [s[|s| - 1]];
  }

  lemma {:induction false} SortedPermutes<T(!new)>(less: (T, T) -> bool, s: seq<T>)
    ensures multiset(Sorted(less, s)) == multiset(s)
  {
    if s == [] {
    } else {
      hide Insert;
      SortedPermutes(less, s[..|s| - 1]);
      InsertMembers(less, Sorted(less, s[..|s| - 1]), s[|s| - 1]);
      LastSplits(s);
    }
  }

  ghost predicate Transitive<T(!new)>(less: (T, T) -> bool) {
    forall x, y, z :: less(x, y) && less(y, z) ==> less(x, z)
  }

  lemma ThenLast<T>(less: (T, T) -> bool, ks: seq<T>, k: T)
    requires Ascending(less, ks)
    requires forall x :: x in ks ==> less(x, k)
    ensures Ascending(less, ks + [k])
  {
    var all := ks + [k];
    forall i, j | 0 <= i < j < |all| ensures less(all[i], all[j]) {
      assert all[i] == ks[i];
    }
  }

  lemma {:induction false} InsertAscends<T(!new)>(less: (T, T) -> bool, s: seq<T>, x: T)
    requires Transitive(less)
    requires Ascending(less, s)
    requires forall y :: y in s ==> less(y, x) || less(x, y)
    ensures Ascending(less, Insert(less, s, x))
  {
    if s == [] {
      assert Insert(less, s, x) == [x];
    } else {
      var init, last := s[..|s| - 1], s[|s| - 1];
      assert last in s && forall y :: y in init ==> y in s;
      if less(x, last) {
        InsertAscends(less, init, x);
        assert forall y :: y in init ==> less(y, last);
        ThenLast(less, Insert(less, init, x), last);
      } else {
        forall y | y in s ensures less(y, x) {
          assert less(last, x);
          var i :| 0 <= i < |s| && s[i] == y;
        }
        ThenLast(less, s, x);
      }
    }
  }

  /** Sorting elements that are all comparable puts them in ascending order. */
  lemma {:induction false} SortAscends<T(!new)>(less: (T, T) -> bool, s: seq<T>)
    requires Transitive(less)
    requires forall i, j :: 0 <= i < j < |s| ==> less(s[i], s[j]) || less(s[j], s[i])
    ensures Ascending(less, Sorted(less, s))
  {
    if s == [] {
    } else {
      var init, last := s[..|s| - 1], s[|s| - 1];
      SortAscends(less, init);
      forall y | y in Sorted(less, init) ensures less(y, last) || less(last, y) {
        var i :| 0 <= i < |init| && init[i] == y;
        assert s[i] == y;
      }
      InsertAscends(less, Sorted(less, init), last);
    }
  }

  /** Some key orders the elements: nothing comes before itself, and what is between two that are in order is after one of them or before the other. */
  ghost predicate Ranks<T(!new)>(less: (T, T) -> bool) {
    && (forall x, y :: less(x, y) ==> !less(y, x))
    && (forall x, y, z :: less(x, z) ==> less(x, y) || less(y, z))
  }

  ghost predicate InOrderBy<T>(less: (T, T) -> bool, s: seq<T>) {
    forall i, j :: 0 <= i < j < |s| ==> !less(s[j], s[i])
  }

  lemma {:induction false} InsertKeepsOrder<T(!new)>(less: (T, T) -> bool, s: seq<T>, x: T)
    requires Ranks(less) && InOrderBy(less, s)
    ensures InOrderBy(less, Insert(less, s, x))
  {
    var r := Insert(less, s, x);
    if s == [] {
      assert r == [x];
    } else {
      var init, last := s[..|s| - 1], s[|s| - 1];
      if less(x, last) {
        InsertKeepsOrder(less, init, x);
        var front := Insert(less, init, x);
        forall i, j | 0 <= i < j < |r| ensures !less(r[j], r[i]) {
          if j == |r| - 1 {
            assert r[i] == front[i] && front[i] in front;
            if front[i] in init {
              var k :| 0 <= k < |init| && init[k] == front[i];
              assert !less(s[|s| - 1], s[k]);
            }
          } else {
            assert r[i] == front[i] && r[j] == front[j];
          }
        }
      } else {
        forall i, j | 0 <= i < j < |r| ensures !less(r[j], r[i]) {
          if j == |r| - 1 && i < |s| - 1 {
            assert !less(last, s[i]) && !less(x, last);
            assert !less(x, s[i]);
          }
        }
      }
    }
  }

  /** Sorting by a key puts the elements in its order, whichever of them share it. */
  lemma {:induction false} SortedInOrder<T(!new)>(less: (T, T) -> bool, s: seq<T>)
    requires Ranks(less)
    ensures InOrderBy(less, Sorted(less, s))
  {
    if s == [] {
    } else {
      SortedInOrder(less, s[..|s| - 1]);
      InsertKeepsOrder(less, Sorted(less, s[..|s| - 1]), s[|s| - 1]);
    }
  }

  // ---------------------------------------------------------------- strings

  predicate CharLess(a: char, b: char) {
    a < b
  }

  /** Rust compares strings by their UTF-8 bytes, which is the order of their characters. */
  predicate StringLess(a: string, b: string) {
    LexLess(CharLess, a, b)
  }

  lemma StringLessIsOrder()
    ensures StrictOrder(StringLess)
  {
    assert StrictOrder(CharLess);
    forall a: string, b: string ensures !StringLess(a, a) && (a != b ==> StringLess(a, b) || StringLess(b, a)) {
      LexTotal(CharLess, a, b);
    }
    forall a: string, b: string, c: string | StringLess(a, b) && StringLess(b, c) ensures StringLess(a, c) {
      LexTransitive(CharLess, a, b, c);
    }
  }

  /** The strings of a BTreeSet, in its order. */
  function StringsInOrder(s: set<string>): (r: seq<string>)
    ensures forall x :: x in r <==> x in s
    ensures |r| == |s|
    ensures Ascending(StringLess, r)
  {
    StringLessIsOrder();
    Enumerate(StringLess, s)
  }
}
