/** Strict orders, the unique ascending arrangement of a set, and the two orders on strings the
    program relies on: Go compares the bytes of the UTF-8 encoding, JavaScript's default sort
    compares UTF-16 code units. */
module Sorting {

  function Elems<T(==)>(s: seq<T>): set<T> {
    set x | x in s
  }

  ghost predicate TotalOn<T(!new)>(less: (T, T) -> bool, s: set<T>) {
    && (forall x | x in s :: !less(x, x))
    && (forall x, y | x in s && y in s && x != y :: less(x, y) || less(y, x))
    && (forall x, y, z | x in s && y in s && z in s && less(x, y) && less(y, z) :: less(x, z))
  }

  ghost predicate Ascending<T(!new)>(less: (T, T) -> bool, r: seq<T>) {
    forall i, j | 0 <= i < j < |r| :: less(r[i], r[j])
  }

  /** What Go's sort.Slice promises, stable or not: a permutation with no inversion. */
  ghost predicate SortedPermutation<T(!new)>(less: (T, T) -> bool, a: seq<T>, r: seq<T>) {
    multiset(r) == multiset(a) && NoInversion(less, r)
  }

  ghost predicate NoDuplicates<T(!new)>(s: seq<T>) {
    forall i, j | 0 <= i < j < |s| :: s[i] != s[j]
  }

  /** A set has at most one ascending arrangement. */
  lemma {:induction false} AscendingUnique<T(!new)>(less: (T, T) -> bool, a: seq<T>, b: seq<T>)
    requires TotalOn(less, Elems(a))
    requires Ascending(less, a) && Ascending(less, b) && Elems(a) == Elems(b)
    ensures a == b
  {
    if a != [] || b != [] {
      assert a != [] && b != [] by {
        assert a != [] ==> a[0] in Elems(b);
        assert b != [] ==> b[0] in Elems(a);
      }
      assert a[0] in Elems(b) && b[0] in Elems(a);
      var i :| 0 <= i < |b| && b[i] == a[0];
      var j :| 0 <= j < |a| && a[j] == b[0];
      var x, y := a[0], b[0];
      assert (i == 0 || less(y, x)) && (j == 0 || less(x, y));
      assert x == y;
      AscendingTail(less, a);
      AscendingTail(less, b);
      AscendingUnique(less, a[1..], b[1..]);
    }
  }

  lemma AscendingTail<T(!new)>(less: (T, T) -> bool, a: seq<T>)
    requires a != [] && TotalOn(less, Elems(a)) && Ascending(less, a)
    ensures Ascending(less, a[1..]) && Elems(a[1..]) == Elems(a) - {a[0]} && TotalOn(less, Elems(a[1..]))
  {
    forall x ensures x in Elems(a[1..]) <==> x in Elems(a) - {a[0]} {
      if x in Elems(a[1..]) {
        var i :| 0 <= i < |a| - 1 && a[1..][i] == x;
        assert less(a[0], a[i + 1]);
        assert a[0] in Elems(a);
      }
      if x in Elems(a) - {a[0]} {
        var i :| 0 <= i < |a| && a[i] == x;
        assert a[1..][i - 1] == x;
      }
    }
  }

  lemma {:induction false} LeastExists<T(!new)>(less: (T, T) -> bool, s: set<T>)
    requires s != {} && TotalOn(less, s)
    ensures exists m :: m in s && forall x | x in s && x != m :: less(m, x)
  {
    var y :| y in s;
    if s != {y} {
      var rest := s - {y};
      assert s == rest + {y};
      LeastExists(less, rest);
      var m :| m in rest && forall x | x in rest && x != m :: less(m, x);
      if less(m, y) {
        assert forall x | x in s && x != m :: less(m, x);
      } else {
        assert forall x | x in s && x != y :: less(y, x);
      }
    }
  }

  lemma ConsElems<T>(x: T, r: seq<T>)
    ensures Elems([x] + r) == Elems(r) + {x}
  {
    assert forall y :: y in [x] + r <==> y == x || y in r;
  }

  lemma SnocElems<T>(r: seq<T>, x: T)
    ensures Elems(r + [x]) == Elems(r) + {x}
  {
    assert forall y :: y in r + [x] <==> y == x || y in r;
  }

  /** The ascending arrangement of a set. */
  ghost function Arrange<T(!new)>(less: (T, T) -> bool, s: set<T>): (r: seq<T>)
    requires TotalOn(less, s)
    ensures Ascending(less, r) && Elems(r) == s
  {
    if s == {} then []
    else
      LeastExists(less, s);
      var m :| m in s && forall x | x in s && x != m :: less(m, x);
      var rest := Arrange(less, s - {m});
      ConsElems(m, rest);
      [m] + rest
  }

  lemma ArrangeUnique<T(!new)>(less: (T, T) -> bool, s: set<T>, r: seq<T>)
    requires TotalOn(less, s) && Ascending(less, r) && Elems(r) == s
    ensures r == Arrange(less, s)
  {
    AscendingUnique(less, r, Arrange(less, s));
  }

  lemma {:induction false} AscendingNoDuplicates<T(!new)>(less: (T, T) -> bool, r: seq<T>)
    requires TotalOn(less, Elems(r)) && Ascending(less, r)
    ensures NoDuplicates(r)
  {
    forall i, j | 0 <= i < j < |r| ensures r[i] != r[j] {
      assert less(r[i], r[j]);
      assert r[i] in Elems(r);
    }
  }

  /** Any sort of distinct, totally ordered elements, stable or not, gives the one arrangement. */
  lemma SortedPermutationIsArrange<T(!new)>(less: (T, T) -> bool, a: seq<T>, r: seq<T>)
    requires TotalOn(less, Elems(a)) && NoDuplicates(a) && SortedPermutation(less, a, r)
    ensures r == Arrange(less, Elems(a))
  {
    forall x ensures x in Elems(r) <==> x in Elems(a) {
      assert x in multiset(r) <==> x in multiset(a);
    }
    assert Elems(r) == Elems(a);
    NoDuplicatesPermutes(a, r);
    forall i, j | 0 <= i < j < |r| ensures less(r[i], r[j]) {
      assert r[i] in Elems(a) && r[j] in Elems(a);
      assert r[i] != r[j];
    }
    ArrangeUnique(less, Elems(a), r);
  }

  /** Two orders arrange a set alike if and only if they agree on every pair of its elements. */
  lemma SameArrangement<T(!new)>(f: (T, T) -> bool, g: (T, T) -> bool, s: set<T>, a: seq<T>, b: seq<T>)
    requires TotalOn(f, s) && TotalOn(g, s) && Ascending(f, a) && Ascending(g, b) && Elems(a) == s && Elems(b) == s
    ensures a == b <==> forall x, y | x in s && y in s && x != y :: f(x, y) <==> g(x, y)
  {
    if a == b {
      forall x, y | x in s && y in s && x != y ensures f(x, y) <==> g(x, y) {
        assert x in Elems(a) && y in Elems(a);
        var i :| 0 <= i < |a| && a[i] == x;
        var j :| 0 <= j < |a| && a[j] == y;
        assert i < j ==> f(x, y) && g(x, y);
        assert j < i ==> f(y, x) && g(y, x);
        assert f(x, y) && f(y, x) ==> f(x, x);
        assert g(x, y) && g(y, x) ==> g(x, x);
      }
    }
    if forall x, y | x in s && y in s && x != y :: f(x, y) <==> g(x, y) {
      forall i, j | 0 <= i < j < |b| ensures f(b[i], b[j]) {
        assert b[i] in Elems(b) && b[j] in Elems(b) && g(b[i], b[j]);
      }
      AscendingUnique(f, a, b);
    }
  }

  lemma {:induction false} NoDuplicatesCount<T(!new)>(a: seq<T>)
    ensures NoDuplicates(a) <==> forall x :: multiset(a)[x] <= 1
  {
    if a != [] {
      var rest := a[1..];
      assert a == [a[0]] + rest;
      NoDuplicatesCount(rest);
      assert NoDuplicates(a) <==> NoDuplicates(rest) && a[0] !in rest by {
        assert forall i | 0 <= i < |rest| :: rest[i] == a[i + 1];
        assert forall i | 1 <= i < |a| :: a[i] == rest[i - 1];
      }
      assert forall x :: multiset(a)[x] == multiset(rest)[x] + (if x == a[0] then 1 else 0);
      assert a[0] in rest <==> multiset(rest)[a[0]] >= 1;
    }
  }

  lemma NoDuplicatesPermutes<T(!new)>(a: seq<T>, r: seq<T>)
    requires NoDuplicates(a) && multiset(r) == multiset(a)
    ensures NoDuplicates(r) && |r| == |a|
  {
    NoDuplicatesCount(a);
    NoDuplicatesCount(r);
    assert |multiset(a)| == |a| && |multiset(r)| == |r|;
  }

  ghost predicate WeakOrder<T(!new)>(less: (T, T) -> bool) {
    && (forall x, y :: less(x, y) ==> !less(y, x))
    && (forall x, y, z :: !less(x, y) && !less(y, z) ==> !less(x, z))
  }

  ghost predicate NoInversion<T(!new)>(less: (T, T) -> bool, s: seq<T>) {
    forall i, j | 0 <= i < j < |s| :: !less(s[j], s[i])
  }

  lemma WeaklyBefore<T(!new)>(less: (T, T) -> bool, x: T, y: T, z: T)
    requires WeakOrder(less) && !less(x, y) && !less(y, z)
    ensures !less(x, z)
  {
  }

  lemma InsertKeepsOrder<T(!new)>(less: (T, T) -> bool, x: T, front: seq<T>, back: seq<T>)
    requires NoInversion(less, front + back)
    requires forall j | 0 <= j < |front| :: !less(x, front[j])
    requires forall j | 0 <= j < |back| :: !less(back[j], x)
    ensures NoInversion(less, front + [x] + back)
  {
    var was, r, k := front + back, front + [x] + back, |front|;
    forall i, j | 0 <= i < j < |r| ensures !less(r[j], r[i]) {
      if i < k < j {
        assert was[i] == r[i] && was[j - 1] == r[j];
      } else if j < k {
        assert was[i] == r[i] && was[j] == r[j];
      } else if k < i {
        assert was[i - 1] == r[i] && was[j - 1] == r[j];
      }
    }
  }

  method Insert<T(!new)>(less: (T, T) -> bool, x: T, s: seq<T>) returns (r: seq<T>)
    requires WeakOrder(less) && NoInversion(less, s)
    ensures multiset(r) == multiset(s) + multiset{x} && NoInversion(less, r)
  {
    var k := |s|;
    while k > 0 && less(x, s[k - 1])
      invariant 0 <= k <= |s|
      invariant forall j | k <= j < |s| :: !less(s[j], x)
    {
      k := k - 1;
    }
    ghost var front, back := s[..k], s[k..];
    assert s == front + back;
    forall j | 0 <= j < k ensures !less(x, front[j]) {
      if j < k - 1 { WeaklyBefore(less, x, s[k - 1], s[j]); }
    }
    InsertKeepsOrder(less, x, front, back);
    r := s[..k] + [x] + s[k..];
  }

  /** Sorting by repeated insertion; callers may rely on the contract of sort.Slice only. */
  method Sort<T(!new)>(less: (T, T) -> bool, a: seq<T>) returns (r: seq<T>)
    requires WeakOrder(less)
    ensures SortedPermutation(less, a, r)
  {
    r := [];
    for i := 0 to |a|
      invariant SortedPermutation(less, a[..i], r)
    {
      r := Insert(less, a[i], r);
      assert a[..i + 1] == a[..i] + [a[i]];
    }
    assert a[..|a|] == a;
  }

  // ---- orders on strings ----

  predicate LexLess(a: seq<int>, b: seq<int>) {
    if b == [] then false
    else if a == [] then true
    else a[0] < b[0] || (a[0] == b[0] && LexLess(a[1..], b[1..]))
  }

  lemma {:induction false} LexIrreflexive(a: seq<int>)
    ensures !LexLess(a, a)
  {
    if a != [] { LexIrreflexive(a[1..]); }
  }

  lemma {:induction false} LexTransitive(a: seq<int>, b: seq<int>, c: seq<int>)
    requires LexLess(a, b) && LexLess(b, c)
    ensures LexLess(a, c)
  {
    if a != [] && a[0] == b[0] && b[0] == c[0] { LexTransitive(a[1..], b[1..], c[1..]); }
  }

  lemma {:induction false} LexTotal(a: seq<int>, b: seq<int>)
    ensures a == b || LexLess(a, b) || LexLess(b, a)
  {
    if a != [] && b != [] && a[0] == b[0] {
      LexTotal(a[1..], b[1..]);
      assert a == [a[0]] + a[1..] && b == [b[0]] + b[1..];
    }
  }

  lemma {:induction false} LexAsymmetric(a: seq<int>, b: seq<int>)
    requires LexLess(a, b)
    ensures !LexLess(b, a)
  {
    if a != [] && a[0] == b[0] { LexAsymmetric(a[1..], b[1..]); }
  }

  lemma {:induction false} LexNegativelyTransitive(a: seq<int>, b: seq<int>, c: seq<int>)
    requires !LexLess(a, b) && !LexLess(b, c)
    ensures !LexLess(a, c)
  {
    if a != [] && b != [] && c != [] && a[0] == b[0] && b[0] == c[0] {
      LexNegativelyTransitive(a[1..], b[1..], c[1..]);
    }
  }

  /** Code points. The byte order of UTF-8 is the order of code points (section 1 of RFC 3629). */
  function Points(s: string): seq<int> {
    seq(|s|, i requires 0 <= i < |s| => s[i] as int)
  }

  /** Go's `<` on strings. */
  predicate GoLess(s: string, t: string) {
    LexLess(Points(s), Points(t))
  }

  /** UTF-16 code units (section 2 of RFC 2781). */
  function Units(s: string): (u: seq<int>)
    ensures s != "" ==> u != []
  {
    if s == "" then []
    else
      var c := s[0] as int;
      (if c < 0x10000 then [c]
       else [0xD800 + (c - 0x10000) / 0x400, 0xDC00 + (c - 0x10000) % 0x400]) + Units(s[1..])
  }

  /** JavaScript's default order, used by Array.prototype.sort without a comparator. */
  predicate JsLess(s: string, t: string) {
    LexLess(Units(s), Units(t))
  }

  lemma PointsInjective(s: string, t: string)
    requires Points(s) == Points(t)
    ensures s == t
  {
    assert |s| == |Points(s)| == |t|;
    forall i | 0 <= i < |s| ensures s[i] == t[i] {
      assert Points(s)[i] == s[i] as int && Points(t)[i] == t[i] as int;
    }
  }

  lemma {:induction false} UnitsInjective(s: string, t: string)
    requires Units(s) == Units(t)
    ensures s == t
  {
    if s != "" && t != "" {
      var c, d := s[0] as int, t[0] as int;
      var us, ut := Units(s[1..]), Units(t[1..]);
      assert Units(s)[0] == Units(t)[0];
      if c < 0x10000 {
        assert d < 0x10000 && c == d;
        assert Units(s)[1..] == us && Units(t)[1..] == ut;
      } else {
        assert d >= 0x10000;
        assert Units(s)[1] == Units(t)[1];
        assert Units(s)[2..] == us && Units(t)[2..] == ut;
        assert c == d;
      }
      UnitsInjective(s[1..], t[1..]);
      assert s == [s[0]] + s[1..] && t == [t[0]] + t[1..];
    }
  }

  lemma GoLessTotal(s: set<string>)
    ensures TotalOn(GoLess, s)
  {
    forall x | x in s ensures !GoLess(x, x) { LexIrreflexive(Points(x)); }
    forall x, y | x in s && y in s && x != y ensures GoLess(x, y) || GoLess(y, x) {
      LexTotal(Points(x), Points(y));
      if Points(x) == Points(y) { PointsInjective(x, y); }
    }
    forall x, y, z | x in s && y in s && z in s && GoLess(x, y) && GoLess(y, z) ensures GoLess(x, z) {
      LexTransitive(Points(x), Points(y), Points(z));
    }
  }

  lemma JsLessTotal(s: set<string>)
    ensures TotalOn(JsLess, s)
  {
    forall x | x in s ensures !JsLess(x, x) { LexIrreflexive(Units(x)); }
    forall x, y | x in s && y in s && x != y ensures JsLess(x, y) || JsLess(y, x) {
      LexTotal(Units(x), Units(y));
      if Units(x) == Units(y) { UnitsInjective(x, y); }
    }
    forall x, y, z | x in s && y in s && z in s && JsLess(x, y) && JsLess(y, z) ensures JsLess(x, z) {
      LexTransitive(Units(x), Units(y), Units(z));
    }
  }

  /** sort.Strings applied to the keys of a map. */
  ghost function GoSorted(s: set<string>): (r: seq<string>)
    ensures Ascending(GoLess, r) && Elems(r) == s
  {
    GoLessTotal(s);
    Arrange(GoLess, s)
  }

  /** Object.keys(o).sort(). */
  ghost function JsSorted(s: set<string>): (r: seq<string>)
    ensures Ascending(JsLess, r) && Elems(r) == s
  {
    JsLessTotal(s);
    Arrange(JsLess, s)
  }

  lemma GoLessWeakOrder()
    ensures WeakOrder(GoLess)
  {
    forall x, y | GoLess(x, y) ensures !GoLess(y, x) {
      LexAsymmetric(Points(x), Points(y));
    }
    forall x, y, z | !GoLess(x, y) && !GoLess(y, z) ensures !GoLess(x, z) {
      LexNegativelyTransitive(Points(x), Points(y), Points(z));
    }
  }

  lemma JsLessWeakOrder()
    ensures WeakOrder(JsLess)
  {
    forall x, y | JsLess(x, y) ensures !JsLess(y, x) {
      LexAsymmetric(Units(x), Units(y));
    }
    forall x, y, z | !JsLess(x, y) && !JsLess(y, z) ensures !JsLess(x, z) {
      LexNegativelyTransitive(Units(x), Units(y), Units(z));
    }
  }

  /** sort.Strings over a slice without repeats. */
  method SortStrings(a: seq<string>) returns (r: seq<string>)
    requires NoDuplicates(a)
    ensures r == GoSorted(Elems(a))
  {
    GoLessWeakOrder();
    r := Sort(GoLess, a);
    GoLessTotal(Elems(a));
    SortedPermutationIsArrange(GoLess, a, r);
  }

  /** Array.prototype.sort over keys. */
  method SortKeysJs(a: seq<string>) returns (r: seq<string>)
    requires NoDuplicates(a)
    ensures r == JsSorted(Elems(a))
  {
    JsLessWeakOrder();
    r := Sort(JsLess, a);
    JsLessTotal(Elems(a));
    SortedPermutationIsArrange(JsLess, a, r);
  }

  /** Go ranges over a map in an unspecified order; here the keys come out in any order. */
  method Keys<V>(m: map<string, V>) returns (ks: seq<string>)
    ensures NoDuplicates(ks) && Elems(ks) == m.Keys
  {
    ks := [];
    var todo := m.Keys;
    while todo != {}
      invariant NoDuplicates(ks) && Elems(ks) + todo == m.Keys && Elems(ks) !! todo
    {
      var k :| k in todo;
      assert k !in Elems(ks);
      ks := ks + [k];
      todo := todo - {k};
    }
  }
}
