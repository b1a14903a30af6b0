/** aggregateAccountResults in cmd/scanner/main.go: one result out of the per-account ones. quoted
    gives the text of a status as the quoting verb of fmt prints it. */
module Aggregate {
  import opened Wrappers
  import opened Sorting
  import opened Report

  // ---- status: error > fail > pass > not_in_use ----

  /** Anything unknown counts as an error. */
  function Rank(status: string): nat {
    if status == STATUS_NOT_IN_USE then 0 else if status == STATUS_PASS then 1 else if status == STATUS_FAIL then 2 else 3
  }

  function StatusOf(rank: nat): string {
    if rank == 0 then STATUS_NOT_IN_USE else if rank == 1 then STATUS_PASS else if rank == 2 then STATUS_FAIL else STATUS_ERROR
  }

  /** The highest rank among the accounts. */
  function HighestRank(ids: seq<string>, m: map<string, CheckResult>): (r: nat)
    requires forall a | a in ids :: a in m
    ensures r <= 3
  {
    if ids == [] then 0
    else
      var n := |ids| - 1;
      var rest, last := HighestRank(ids[..n], m), Rank(m[ids[n]].status);
      if last > rest then last else rest
  }

  lemma {:induction false} HighestRankMeans(ids: seq<string>, m: map<string, CheckResult>)
    requires forall a | a in ids :: a in m
    ensures forall a | a in ids :: Rank(m[a].status) <= HighestRank(ids, m)
    ensures HighestRank(ids, m) > 0 ==> exists a :: a in ids && Rank(m[a].status) == HighestRank(ids, m)
  {
    if ids != [] {
      var n := |ids| - 1;
      assert ids == ids[..n] + [ids[n]];
      HighestRankMeans(ids[..n], m);
    }
  }

  // ---- counts and lines ----

  function Sum(ids: seq<string>, m: map<string, CheckResult>): int
    requires forall a | a in ids :: a in m
  {
    if ids == [] then 0 else Sum(ids[..|ids| - 1], m) + m[ids[|ids| - 1]].count
  }

  function Prefixed(a: string, lines: seq<string>): seq<string> {
    seq(|lines|, i requires 0 <= i < |lines| => "account " + a + ": " + lines[i])
  }

  function Quoted(quoted: map<string, string>, s: string): string { if s in quoted then quoted[s] else s }

  predicate Known(status: string) { status in {STATUS_PASS, STATUS_FAIL, STATUS_ERROR, STATUS_NOT_IN_USE} }

  /** The findings of one account, and one more for a status it may not have. */
  function FindingsOf(quoted: map<string, string>, a: string, r: CheckResult): seq<string> {
    Prefixed(a, Items(r.findings))
    + if Known(r.status) then [] else ["account " + a + ": invalid check status " + Quoted(quoted, r.status)]
  }

  function Findings(quoted: map<string, string>, ids: seq<string>, m: map<string, CheckResult>): seq<string>
    requires forall a | a in ids :: a in m
  {
    if ids == [] then []
    else var n := |ids| - 1; Findings(quoted, ids[..n], m) + FindingsOf(quoted, ids[n], m[ids[n]])
  }

  function Evidence(ids: seq<string>, m: map<string, CheckResult>): seq<string>
    requires forall a | a in ids :: a in m
  {
    if ids == [] then []
    else var n := |ids| - 1; Evidence(ids[..n], m) + Prefixed(ids[n], Items(m[ids[n]].evidence))
  }

  /** append to a nil slice leaves it nil when there is nothing to append. */
  function Slice(lines: seq<string>): Strings { if lines == [] then None else Some(lines) }

  function AggregatedOver(quoted: map<string, string>, ids: seq<string>, m: map<string, CheckResult>): CheckResult
    requires forall a | a in ids :: a in m
  {
    CheckResult(StatusOf(HighestRank(ids, m)), Slice(Findings(quoted, ids, m)), Sum(ids, m), "", Slice(Evidence(ids, m)))
  }

  /** In the byte order of the account IDs. */
  ghost function Aggregated(quoted: map<string, string>, m: map<string, CheckResult>): CheckResult {
    var ids := GoSorted(m.Keys);
    assert forall a | a in ids :: a in Elems(ids);
    AggregatedOver(quoted, ids, m)
  }

  method AppendPrefixed(to: seq<string>, a: string, lines: seq<string>) returns (r: seq<string>)
    ensures r == to + Prefixed(a, lines)
  {
    r := to;
    for i := 0 to |lines|
      invariant r == to + Prefixed(a, lines)[..i]
    {
      r := r + ["account " + a + ": " + lines[i]];
    }
  }

  /** The switch on the account's status. */
  method FoldStatus(rank: nat, status: string, next: string) returns (r: string)
    requires rank <= 3 && status == StatusOf(rank)
    ensures r == StatusOf(if Rank(next) > rank then Rank(next) else rank)
  {
    r := status;
    if next == STATUS_ERROR {
      r := STATUS_ERROR;
    } else if next == STATUS_FAIL {
      if r != STATUS_ERROR { r := STATUS_FAIL; }
    } else if next == STATUS_PASS {
      if r != STATUS_ERROR && r != STATUS_FAIL { r := STATUS_PASS; }
    } else if next != STATUS_NOT_IN_USE {
      r := STATUS_ERROR;
    }
  }

  method FoldFindings(quoted: map<string, string>, findings: seq<string>, a: string, result: CheckResult) returns (r: seq<string>)
    ensures r == findings + FindingsOf(quoted, a, result)
  {
    r := AppendPrefixed(findings, a, Items(result.findings));
    if !Known(result.status) {
      r := r + ["account " + a + ": invalid check status " + Quoted(quoted, result.status)];
    }
  }

  method AggregateOver(quoted: map<string, string>, ids: seq<string>, m: map<string, CheckResult>) returns (r: CheckResult)
    requires forall a | a in ids :: a in m
    ensures r == AggregatedOver(quoted, ids, m)
  {
    var status, count := STATUS_NOT_IN_USE, 0;
    var findings: seq<string>, evidence: seq<string> := [], [];
    for i := 0 to |ids|
      invariant status == StatusOf(HighestRank(ids[..i], m)) && count == Sum(ids[..i], m)
      invariant findings == Findings(quoted, ids[..i], m) && evidence == Evidence(ids[..i], m)
    {
      assert ids[..i + 1][..i] == ids[..i];
      var result := m[ids[i]];
      count := count + result.count;
      findings := FoldFindings(quoted, findings, ids[i], result);
      evidence := AppendPrefixed(evidence, ids[i], Items(result.evidence));
      status := FoldStatus(HighestRank(ids[..i], m), status, result.status);
    }
    assert ids[..|ids|] == ids;
    r := CheckResult(status, Slice(findings), count, "", Slice(evidence));
  }

  method AggregateAccountResults(quoted: map<string, string>, m: map<string, CheckResult>) returns (r: CheckResult)
    ensures r == Aggregated(quoted, m)
  {
    var keys := Keys(m);
    var ids := SortStrings(keys);
    assert forall a | a in ids :: a in Elems(ids);
    r := AggregateOver(quoted, ids, m);
  }

  predicate Bad(status: string) { !(status in {STATUS_PASS, STATUS_FAIL, STATUS_NOT_IN_USE}) }

  /** The status of the whole, by those of the parts. */
  ghost predicate Joins(m: map<string, CheckResult>, s: string) {
    && (s == STATUS_ERROR <==> exists a :: a in m && Bad(m[a].status))
    && (s == STATUS_FAIL <==> (forall a | a in m :: !Bad(m[a].status)) && exists a :: a in m && m[a].status == STATUS_FAIL)
    && (s == STATUS_NOT_IN_USE <==> forall a | a in m :: m[a].status == STATUS_NOT_IN_USE)
    && s in {STATUS_ERROR, STATUS_FAIL, STATUS_PASS, STATUS_NOT_IN_USE}
  }

  /** NOTHING IS HIDDEN: one error or unknown status makes the whole an error, else one failure a
      failure, else one pass a pass; only when every account reports not_in_use does the whole. */
  lemma AggregateStatus(quoted: map<string, string>, m: map<string, CheckResult>)
    ensures Joins(m, Aggregated(quoted, m).status)
  {
    var ids := GoSorted(m.Keys);
    forall a ensures a in ids <==> a in m { assert a in ids <==> a in Elems(ids); }
    RankJoins(ids, m);
  }

  lemma RankJoins(ids: seq<string>, m: map<string, CheckResult>)
    requires forall a :: a in ids <==> a in m
    ensures Joins(m, StatusOf(HighestRank(ids, m)))
  {
    HighestRankMeans(ids, m);
    forall a | a in m ensures (Bad(m[a].status) <==> Rank(m[a].status) == 3) && Rank(m[a].status) <= HighestRank(ids, m) {
      assert a in ids;
    }
  }

  lemma {:induction false} FindingsMember(quoted: map<string, string>, ids: seq<string>, m: map<string, CheckResult>, f: string)
    requires forall a | a in ids :: a in m
    ensures f in Findings(quoted, ids, m) <==> exists a :: a in ids && f in FindingsOf(quoted, a, m[a])
  {
    if ids != [] {
      var n := |ids| - 1;
      assert ids == ids[..n] + [ids[n]];
      FindingsMember(quoted, ids[..n], m, f);
      assert ids[n] in ids;
    }
  }

  /** No finding is lost or invented. */
  lemma AggregateFindings(quoted: map<string, string>, m: map<string, CheckResult>, f: string)
    ensures f in Items(Aggregated(quoted, m).findings) <==> exists a :: a in m && f in FindingsOf(quoted, a, m[a])
  {
    var ids := GoSorted(m.Keys);
    forall a ensures a in ids <==> a in m { assert a in ids <==> a in Elems(ids); }
    FindingsMember(quoted, ids, m, f);
  }

  /** The part stands in the whole from there on. */
  predicate StandsAt(all: seq<string>, from: nat, part: seq<string>) {
    from + |part| <= |all| && all[from..from + |part|] == part
  }

  lemma StaysAt(all: seq<string>, more: seq<string>, from: nat, part: seq<string>)
    requires StandsAt(all, from, part)
    ensures StandsAt(all + more, from, part)
  {
  }

  lemma EndsAt(all: seq<string>, part: seq<string>)
    ensures StandsAt(all + part, |all|, part)
  {
  }

  lemma {:induction false} FindingsParts(quoted: map<string, string>, ids: seq<string>, m: map<string, CheckResult>, i: nat)
    requires i < |ids| && forall a | a in ids :: a in m
    ensures StandsAt(Findings(quoted, ids, m), |Findings(quoted, ids[..i], m)|, FindingsOf(quoted, ids[i], m[ids[i]]))
  {
    var n := |ids| - 1;
    var rest, last := Findings(quoted, ids[..n], m), FindingsOf(quoted, ids[n], m[ids[n]]);
    if i < n {
      FindingsParts(quoted, ids[..n], m, i);
      assert ids[..n][..i] == ids[..i];
      StaysAt(rest, last, |Findings(quoted, ids[..i], m)|, FindingsOf(quoted, ids[i], m[ids[i]]));
    } else {
      EndsAt(rest, last);
    }
  }

  /** ORDER: each account's findings stand together, after those of every smaller account ID. */
  lemma AggregateOrder(quoted: map<string, string>, m: map<string, CheckResult>, a: string) returns (from: nat)
    requires a in m
    ensures
      var all, part := Items(Aggregated(quoted, m).findings), FindingsOf(quoted, a, m[a]);
      && StandsAt(all, from, part)
      && forall b, f | b in m && GoLess(b, a) && f in FindingsOf(quoted, b, m[b]) :: f in all[..from]
  {
    var ids := GoSorted(m.Keys);
    assert forall x | x in ids :: x in Elems(ids);
    assert a in Elems(ids);
    var i :| 0 <= i < |ids| && ids[i] == a;
    FindingsParts(quoted, ids, m, i);
    FindingsPrefix(quoted, ids, m, i);
    from := |Findings(quoted, ids[..i], m)|;
    forall b, f | b in m && GoLess(b, a) && f in FindingsOf(quoted, b, m[b]) ensures f in Findings(quoted, ids[..i], m) {
      EarlierFinding(quoted, m, i, b, f);
    }
  }

  lemma EarlierFinding(quoted: map<string, string>, m: map<string, CheckResult>, i: nat, b: string, f: string)
    requires (forall a | a in GoSorted(m.Keys) :: a in m) && i < |GoSorted(m.Keys)|
    requires b in m && GoLess(b, GoSorted(m.Keys)[i]) && f in FindingsOf(quoted, b, m[b])
    ensures f in Findings(quoted, GoSorted(m.Keys)[..i], m)
  {
    EarlierID(m.Keys, i, b);
    FindingsMember(quoted, GoSorted(m.Keys)[..i], m, f);
  }

  lemma EarlierID(s: set<string>, i: nat, b: string)
    requires i < |GoSorted(s)| && b in s && GoLess(b, GoSorted(s)[i])
    ensures b in GoSorted(s)[..i]
  {
    var ids := GoSorted(s);
    assert b in Elems(ids);
    var j :| 0 <= j < |ids| && ids[j] == b;
    GoLessWeakOrder();
    assert forall k | i < k < |ids| :: GoLess(ids[i], ids[k]);
    assert ids[..i][j] == b;
  }

  lemma {:induction false} FindingsPrefix(quoted: map<string, string>, ids: seq<string>, m: map<string, CheckResult>, i: nat)
    requires i <= |ids| && forall a | a in ids :: a in m
    ensures |Findings(quoted, ids[..i], m)| <= |Findings(quoted, ids, m)|
    ensures Findings(quoted, ids, m)[..|Findings(quoted, ids[..i], m)|] == Findings(quoted, ids[..i], m)
  {
    if i == |ids| {
      assert ids[..i] == ids;
    } else {
      var n := |ids| - 1;
      FindingsPrefix(quoted, ids[..n], m, i);
      assert ids[..n][..i] == ids[..i];
    }
  }

  // ---- in the accounts' own terms ----

  /** A line of an account: one of its own, under its name. */
  predicate LineOf(line: string, a: string, lines: seq<string>) {
    exists l :: l in lines && line == "account " + a + ": " + l
  }

  lemma PrefixedMember(a: string, lines: seq<string>, line: string)
    ensures line in Prefixed(a, lines) <==> LineOf(line, a, lines)
  {
    if line in Prefixed(a, lines) {
      var i :| 0 <= i < |lines| && Prefixed(a, lines)[i] == line;
      assert lines[i] in lines;
    }
    if LineOf(line, a, lines) {
      var l :| l in lines && line == "account " + a + ": " + l;
      var i :| 0 <= i < |lines| && lines[i] == l;
      assert Prefixed(a, lines)[i] == line;
    }
  }

  /** A finding of an account, or the remark on a status there is not. */
  predicate FindingOf(quoted: map<string, string>, line: string, a: string, r: CheckResult) {
    || LineOf(line, a, Items(r.findings))
    || (r.status !in {"pass", "fail", "error", "not_in_use"}
        && line == "account " + a + ": invalid check status " + if r.status in quoted then quoted[r.status] else r.status)
  }

  lemma FindingIff(quoted: map<string, string>, line: string, a: string, r: CheckResult)
    ensures line in FindingsOf(quoted, a, r) <==> FindingOf(quoted, line, a, r)
  {
    PrefixedMember(a, Items(r.findings), line);
  }

  /** NAMED: the findings are exactly the accounts' findings, each under its account's name, and a remark for
      every status there is not. */
  lemma FindingsNamed(quoted: map<string, string>, m: map<string, CheckResult>, line: string)
    ensures line in Items(Aggregated(quoted, m).findings) <==> exists a :: a in m && FindingOf(quoted, line, a, m[a])
  {
    AggregateFindings(quoted, m, line);
    forall a | a in m ensures line in FindingsOf(quoted, a, m[a]) <==> FindingOf(quoted, line, a, m[a]) {
      FindingIff(quoted, line, a, m[a]);
    }
  }

  lemma {:induction false} EvidenceMember(ids: seq<string>, m: map<string, CheckResult>, line: string)
    requires forall a | a in ids :: a in m
    ensures line in Evidence(ids, m) <==> exists a :: a in ids && LineOf(line, a, Items(m[a].evidence))
  {
    if ids != [] {
      var n := |ids| - 1;
      assert ids == ids[..n] + [ids[n]];
      EvidenceMember(ids[..n], m, line);
      PrefixedMember(ids[n], Items(m[ids[n]].evidence), line);
      assert ids[n] in ids;
    }
  }

  /** And so is the evidence. */
  lemma EvidenceNamed(quoted: map<string, string>, m: map<string, CheckResult>, line: string)
    ensures line in Items(Aggregated(quoted, m).evidence) <==> exists a :: a in m && LineOf(line, a, Items(m[a].evidence))
  {
    var ids := GoSorted(m.Keys);
    forall a ensures a in ids <==> a in m { assert a in ids <==> a in Elems(ids); }
    EvidenceMember(ids, m, line);
  }

  lemma {:induction false} SumWithout(ids: seq<string>, m: map<string, CheckResult>, i: nat)
    requires i < |ids| && forall a | a in ids :: a in m
    ensures Sum(ids, m) == Sum(ids[..i] + ids[i + 1..], m) + m[ids[i]].count
  {
    var n := |ids| - 1;
    if i == n {
      assert ids[..i] + ids[i + 1..] == ids[..n];
    } else {
      SumWithout(ids[..n], m, i);
      var rest := ids[..i] + ids[i + 1..];
      assert rest[..|rest| - 1] == ids[..n][..i] + ids[..n][i + 1..];
    }
  }

  lemma {:induction false} SumFrame(ids: seq<string>, m: map<string, CheckResult>, k: map<string, CheckResult>)
    requires forall a | a in ids :: a in m && a in k && m[a] == k[a]
    ensures Sum(ids, m) == Sum(ids, k)
  {
    if ids != [] { SumFrame(ids[..|ids| - 1], m, k); }
  }

  lemma WithoutAt(ids: seq<string>, i: nat)
    requires i < |ids| && NoDuplicates(ids)
    ensures Elems(ids[..i] + ids[i + 1..]) == Elems(ids) - {ids[i]}
  {
    var rest := ids[..i] + ids[i + 1..];
    assert ids == ids[..i] + [ids[i]] + ids[i + 1..];
    forall x ensures x in Elems(rest) <==> x in Elems(ids) - {ids[i]} {
      assert x in Elems(rest) <==> x in ids[..i] || x in ids[i + 1..];
    }
  }

  lemma AscendingWithout(ids: seq<string>, i: nat)
    requires i < |ids| && Ascending(GoLess, ids)
    ensures Ascending(GoLess, ids[..i] + ids[i + 1..])
  {
  }

  lemma SortedWithout(s: set<string>, a: string) returns (i: nat)
    requires a in s
    ensures i < |GoSorted(s)| && GoSorted(s)[i] == a && GoSorted(s - {a}) == GoSorted(s)[..i] + GoSorted(s)[i + 1..]
  {
    var ids := GoSorted(s);
    GoLessTotal(s);
    GoLessTotal(s - {a});
    assert a in Elems(ids);
    i :| 0 <= i < |ids| && ids[i] == a;
    AscendingNoDuplicates(GoLess, ids);
    WithoutAt(ids, i);
    AscendingWithout(ids, i);
    ArrangeUnique(GoLess, s - {a}, ids[..i] + ids[i + 1..]);
  }

  /** SUMMED: without an account the count is less by that account's count; with no account it is 0. */
  lemma CountsAdd(quoted: map<string, string>, m: map<string, CheckResult>, a: string)
    ensures Aggregated(quoted, map[]).count == 0
    ensures a in m ==> Aggregated(quoted, m).count == Aggregated(quoted, m - {a}).count + m[a].count
  {
    GoLessTotal({});
    ArrangeUnique(GoLess, {}, []);
    if a in m {
      var i := SortedWithout(m.Keys, a);
      var ids, rest := GoSorted(m.Keys), GoSorted(m.Keys - {a});
      assert forall x | x in ids :: x in Elems(ids);
      assert forall x | x in rest :: x in Elems(rest);
      SumWithout(ids, m, i);
      SumFrame(rest, m, m - {a});
      assert (m - {a}).Keys == m.Keys - {a};
    }
  }
}
