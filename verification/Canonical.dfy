/** Objects printed field by field, with omitempty, and the key orders of the two languages. */
module Canonical {
  import opened Wrappers
  import opened Sorting
  import opened GoJson

  /** A field of a printed object; None when omitempty leaves it out. */
  datatype Field = Field(name: string, value: Option<Json>)

  /** The members actually printed, in field order. */
  function Kept(fs: seq<Field>): seq<Member> {
    if fs == [] then []
    else
      var f := fs[|fs| - 1];
      Kept(fs[..|fs| - 1]) + (if f.value.Some? then [Member(f.name, f.value.value)] else [])
  }

  lemma KeptSnoc(fs: seq<Field>, f: Field)
    ensures Kept(fs + [f]) == Kept(fs) + (if f.value.Some? then [Member(f.name, f.value.value)] else [])
  {
    assert (fs + [f])[..|fs|] == fs;
  }

  function Names(fs: seq<Field>): seq<string> {
    seq(|fs|, i requires 0 <= i < |fs| => fs[i].name)
  }

  lemma {:induction false} KeptNames(fs: seq<Field>, m: Member)
    requires m in Kept(fs)
    ensures m.key in Names(fs)
  {
    var n := |fs| - 1;
    var f := fs[n];
    if f.value.Some? && m == Member(f.name, f.value.value) {
      assert Names(fs)[n] == m.key;
    } else {
      KeptNames(fs[..n], m);
      var i :| 0 <= i < n && Names(fs[..n])[i] == m.key;
      assert Names(fs)[i] == m.key;
    }
  }

  /** Two records with the same distinct field names that print the same members agree on every
      field: an omitted field cannot be mistaken for a printed one. */
  lemma {:induction false} KeptInjective(fs: seq<Field>, gs: seq<Field>)
    requires Names(fs) == Names(gs) && NoDuplicates(Names(fs))
    requires Kept(fs) == Kept(gs)
    ensures fs == gs
  {
    assert |fs| == |Names(fs)| == |Names(gs)| == |gs|;
    if fs != [] {
      var n := |fs| - 1;
      var f, g := fs[n], gs[n];
      assert Names(fs)[n] == f.name && Names(gs)[n] == g.name;
      assert Names(fs[..n]) == Names(fs)[..n] && Names(gs[..n]) == Names(gs)[..n];
      assert f.name !in Names(fs[..n]) && f.name !in Names(gs[..n]);
      LastKept(fs[..n], f, gs[..n], g);
      KeptInjective(fs[..n], gs[..n]);
      assert fs == fs[..n] + [f] && gs == gs[..n] + [g];
    }
  }

  /** Kept as an injection, usable in both directions. */
  lemma ObjectsEqual(fs: seq<Field>, gs: seq<Field>, names: seq<string>)
    requires Names(fs) == names && Names(gs) == names && NoDuplicates(names)
    ensures Obj(Kept(fs)) == Obj(Kept(gs)) <==> fs == gs
  {
    if Kept(fs) == Kept(gs) { KeptInjective(fs, gs); }
  }

  lemma LastKept(fs: seq<Field>, f: Field, gs: seq<Field>, g: Field)
    requires f.name == g.name && f.name !in Names(fs) && f.name !in Names(gs)
    requires
      Kept(fs) + (if f.value.Some? then [Member(f.name, f.value.value)] else [])
      == Kept(gs) + (if g.value.Some? then [Member(g.name, g.value.value)] else [])
    ensures f == g && Kept(fs) == Kept(gs)
  {
    var a, b := Kept(fs), Kept(gs);
    forall m | m in a ensures m.key != f.name { KeptNames(fs, m); }
    forall m | m in b ensures m.key != f.name { KeptNames(gs, m); }
    var all := a + (if f.value.Some? then [Member(f.name, f.value.value)] else []);
    assert f.value.Some? <==> exists m | m in all :: m.key == f.name by {
      assert f.value.Some? ==> all[|all| - 1].key == f.name;
    }
    assert g.value.Some? <==> exists m | m in all :: m.key == f.name by {
      assert g.value.Some? ==> all[|all| - 1].key == f.name;
    }
    var n := if f.value.Some? then |all| - 1 else |all|;
    assert a == all[..n] && b == all[..n];
    assert f.value.Some? ==> all[n].value == f.value.value && all[n].value == g.value.value;
  }

  // ---- values of fields ----

  function StringsJson(xs: seq<string>): Json {
    Arr(seq(|xs|, i requires 0 <= i < |xs| => Str(xs[i])))
  }

  /** A slice without omitempty: nil prints as null, the empty slice as []. */
  function NullableStrings(l: Option<seq<string>>): Json {
    if l.None? then Null else StringsJson(l.value)
  }

  lemma StringsJsonInjective(xs: seq<string>, ys: seq<string>)
    requires StringsJson(xs) == StringsJson(ys)
    ensures xs == ys
  {
    var a, b := StringsJson(xs).items, StringsJson(ys).items;
    assert |xs| == |a| == |b| == |ys|;
    forall i | 0 <= i < |xs| ensures xs[i] == ys[i] {
      assert a[i] == Str(xs[i]) && b[i] == Str(ys[i]);
    }
  }

  lemma NullableStringsEqual(l: Option<seq<string>>, m: Option<seq<string>>)
    ensures NullableStrings(l) == NullableStrings(m) <==> l == m
  {
    if l.Some? && m.Some? && NullableStrings(l) == NullableStrings(m) { StringsJsonInjective(l.value, m.value); }
  }

  // ---- key orders ----

  /** A canonical array index of JavaScript: the decimal form of 0 .. 2^32 - 2. */
  predicate IsArrayIndex(k: string) {
    && k != "" && (forall i | 0 <= i < |k| :: IsDigit(k[i]))
    && (k[0] != '0' || |k| == 1)
    && DigitsValue(k) <= 0xFFFF_FFFE
  }

  function IndexRank(k: string): int {
    if IsArrayIndex(k) then DigitsValue(k) else -1
  }

  predicate IndexLess(a: string, b: string) {
    IndexRank(a) < IndexRank(b)
  }

  lemma {:induction false} CanonicalDigits(k: string)
    requires k != "" && (forall i | 0 <= i < |k| :: IsDigit(k[i])) && (k[0] != '0' || |k| == 1)
    ensures DigitsValue(k) >= 0 && Digits(DigitsValue(k)) == k && (|k| > 1 ==> DigitsValue(k) >= 10)
    ensures k != "0" ==> DigitsValue(k) > 0
  {
    var n := |k| - 1;
    var front, last := k[..n], k[n];
    assert k == front + [last];
    if n > 0 {
      CanonicalDigits(front);
      var v, d := DigitsValue(front), last as int - '0' as int;
      assert DigitsValue(k) == v * 10 + d;
      assert (v * 10 + d) / 10 == v && (v * 10 + d) % 10 == d;
    } else {
      assert front == "" && DigitsValue(front) == 0;
    }
  }

  lemma IndexLessTotal(s: set<string>)
    requires forall k | k in s :: IsArrayIndex(k)
    ensures TotalOn(IndexLess, s)
  {
    forall x, y | x in s && y in s && x != y ensures IndexLess(x, y) || IndexLess(y, x) {
      CanonicalDigits(x);
      CanonicalDigits(y);
    }
  }

  function Named(ks: seq<string>): (r: seq<string>)
    ensures forall k :: k in r <==> k in ks && !IsArrayIndex(k)
  {
    if ks == [] then []
    else if IsArrayIndex(ks[0]) then Named(ks[1..])
    else [ks[0]] + Named(ks[1..])
  }

  /** The order in which Object.entries lists properties that were added in the order ks
      (OrdinaryOwnPropertyKeys, section 10.1.11.1 of ECMA-262): array indices first, ascending. */
  ghost function OwnOrder(ks: seq<string>): (r: seq<string>)
    ensures Elems(r) == Elems(ks)
  {
    var indices := set k | k in ks && IsArrayIndex(k);
    IndexLessTotal(indices);
    var first := Arrange(IndexLess, indices);
    assert forall k :: k in first + Named(ks) <==> k in Elems(first) || k in Named(ks);
    first + Named(ks)
  }

  method OwnKeys(added: seq<string>) returns (r: seq<string>)
    requires NoDuplicates(added)
    ensures r == OwnOrder(added)
  {
    var indices, named := [], [];
    for i := |added| downto 0
      invariant named == Named(added[i..])
      invariant NoDuplicates(indices) && forall k :: k in indices <==> k in added[i..] && IsArrayIndex(k)
    {
      assert added[i..] == [added[i]] + added[i + 1..];
      if IsArrayIndex(added[i]) {
        assert added[i] !in added[i + 1..];
        indices := [added[i]] + indices;
      } else {
        named := [added[i]] + named;
      }
    }
    assert added[0..] == added;
    ghost var all := set k | k in added && IsArrayIndex(k);
    assert Elems(indices) == all;
    IndexLessTotal(all);
    ghost var was := indices;
    indices := Sort(IndexLess, indices);
    SortedPermutationIsArrange(IndexLess, was, indices);
    r := indices + named;
  }

  /** The keys of a map as goJSONMarshal prints them: sorted by UTF-16 units, assigned one by one
      to a fresh object (assigning "__proto__" adds no property), then listed by Object.entries. */
  ghost function BrowserKeys(s: set<string>): (r: seq<string>)
    ensures Elems(r) == s - {"__proto__"}
  {
    OwnOrder(JsSorted(s - {"__proto__"}))
  }

  /** The order of two properties in Object.entries after sorting: indices before names. */
  predicate Listed(a: string, b: string) {
    if IsArrayIndex(a) && IsArrayIndex(b) then IndexLess(a, b)
    else if IsArrayIndex(a) || IsArrayIndex(b) then IsArrayIndex(a)
    else JsLess(a, b)
  }

  /** No key is "__proto__", and any two keys stand in the same order in both languages. */
  predicate KeysAgree(s: set<string>) {
    "__proto__" !in s && forall a, b | a in s && b in s && a != b :: Listed(a, b) <==> GoLess(a, b)
  }

  lemma ListedTotal(s: set<string>)
    ensures TotalOn(Listed, s)
  {
    JsLessTotal(s);
    IndexLessTotal(set k | k in s && IsArrayIndex(k));
  }

  /** Named keeps the order of what it keeps. */
  lemma {:induction false} NamedAscending(ks: seq<string>)
    requires Ascending(JsLess, ks)
    ensures Ascending(JsLess, Named(ks))
  {
    if ks != [] {
      NamedAscending(ks[1..]);
      if !IsArrayIndex(ks[0]) {
        forall j | 0 <= j < |Named(ks[1..])| ensures JsLess(ks[0], Named(ks[1..])[j]) {
          assert Named(ks[1..])[j] in Named(ks[1..]);
        }
      }
    }
  }

  lemma OwnOrderAscending(ks: seq<string>)
    requires Ascending(JsLess, ks)
    ensures Ascending(Listed, OwnOrder(ks))
  {
    var indices := set k | k in ks && IsArrayIndex(k);
    IndexLessTotal(indices);
    var first, r := Arrange(IndexLess, indices), OwnOrder(ks);
    NamedAscending(ks);
    forall i, j | 0 <= i < j < |r| ensures Listed(r[i], r[j]) {
      assert i < |first| ==> r[i] in Elems(first);
      assert i >= |first| ==> r[i] in Named(ks);
      assert j < |first| ==> r[j] in Elems(first);
      assert j >= |first| ==> r[j] in Named(ks);
    }
  }

  /** EXACT: both languages print the keys s in the same order if and only if the keys agree. */
  lemma SameOrderIff(s: set<string>)
    ensures BrowserKeys(s) == GoSorted(s) <==> KeysAgree(s)
  {
    var b, g := BrowserKeys(s), GoSorted(s);
    if b == g || KeysAgree(s) {
      assert Elems(b) == s;
      OwnOrderAscending(JsSorted(s - {"__proto__"}));
      ListedTotal(s);
      GoLessTotal(s);
      SameArrangement(Listed, GoLess, s, b, g);
    }
  }

  predicate PlainKey(k: string) {
    && k != "__proto__" && !IsArrayIndex(k)
    && forall i | 0 <= i < |k| :: k[i] as int < 0x10000
  }

  lemma {:induction false} UnitsArePoints(s: string)
    requires forall i | 0 <= i < |s| :: s[i] as int < 0x10000
    ensures Units(s) == Points(s)
  {
    if s != "" {
      UnitsArePoints(s[1..]);
      assert Points(s) == [s[0] as int] + Points(s[1..]);
    }
  }

  /** Keys such as check IDs, 12-digit account IDs and project IDs come out in the same order. */
  lemma PlainKeysAgree(s: set<string>)
    requires forall k | k in s :: PlainKey(k)
    ensures KeysAgree(s)
  {
    forall a, b | a in s && b in s && a != b ensures Listed(a, b) <==> GoLess(a, b) {
      UnitsArePoints(a);
      UnitsArePoints(b);
    }
  }

  /** The agreement can fail: "10" sorts before "9" in Go, but 9 is listed before 10 by JavaScript. */
  lemma IndexKeysDisagree(s: set<string>)
    requires "9" in s && "10" in s
    ensures !KeysAgree(s) && BrowserKeys(s) != GoSorted(s)
  {
    assert "9"[..0] == "" && "10"[..1] == "1" && "1"[..0] == "";
    assert DigitsValue("9") == 9 && DigitsValue("10") == 10;
    assert Points("10")[0] == '1' as int && Points("9")[0] == '9' as int;
    assert Listed("9", "10") && !GoLess("9", "10");
    SameOrderIff(s);
  }
}
