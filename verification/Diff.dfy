/** internal/diff/diff.go: the change set between two attested snapshots. */
module Diff {
  import opened Sorting
  import opened Report

  datatype EventKind = StatusChanged | NewFinding | ResolvedFinding

  function KindName(k: EventKind): string {
    match k
    case StatusChanged => "status_changed"
    case NewFinding => "new_finding"
    case ResolvedFinding => "resolved_finding"
  }

  datatype Event = Event(
    kind: EventKind, checkID: string, checkTitle: string, accountID: string,
    previousStatus: string, currentStatus: string, finding: string)

  function Severity(e: Event): int {
    if e.kind == NewFinding then 0
    else if e.kind == ResolvedFinding then 2
    else if e.currentStatus == STATUS_FAIL || e.currentStatus == STATUS_ERROR then 0
    else if e.previousStatus == STATUS_FAIL || e.previousStatus == STATUS_ERROR then 2
    else 1
  }

  /** The comparator handed to sort.Slice. */
  predicate EventLess(a: Event, b: Event) {
    if Severity(a) != Severity(b) then Severity(a) < Severity(b)
    else if a.checkID != b.checkID then GoLess(a.checkID, b.checkID)
    else if a.accountID != b.accountID then GoLess(a.accountID, b.accountID)
    else if a.kind != b.kind then GoLess(KindName(a.kind), KindName(b.kind))
    else GoLess(a.finding, b.finding)
  }

  function AccountResults(snapshot: AttestedContent, check: CheckOutput): map<string, CheckResult> {
    if AccountMap(check) != map[] then AccountMap(check) else map[snapshot.accountID := check.result]
  }

  // ---- which events there are ----

  /** What changed between two results of one check in one account. */
  predicate EmitsAt(checkID: string, title: string, accountID: string, p: CheckResult, c: CheckResult, e: Event) {
    && e.checkID == checkID && e.checkTitle == title && e.accountID == accountID
    && match e.kind
       case StatusChanged =>
         p.status != c.status && e.previousStatus == p.status && e.currentStatus == c.status && e.finding == ""
       case NewFinding =>
         e.previousStatus == "" && e.currentStatus == "" && e.finding in Items(c.findings) && e.finding !in Items(p.findings)
       case ResolvedFinding =>
         e.previousStatus == "" && e.currentStatus == "" && e.finding in Items(p.findings) && e.finding !in Items(c.findings)
  }

  /** The check and the account are in both snapshots. */
  predicate Comparable(previous: AttestedContent, current: AttestedContent, checkID: string, accountID: string) {
    && checkID in CheckMap(previous.checks) && checkID in CheckMap(current.checks)
    && accountID in AccountResults(previous, CheckMap(previous.checks)[checkID])
    && accountID in AccountResults(current, CheckMap(current.checks)[checkID])
  }

  function ResultAt(snapshot: AttestedContent, checkID: string, accountID: string): CheckResult
    requires checkID in CheckMap(snapshot.checks)
    requires accountID in AccountResults(snapshot, CheckMap(snapshot.checks)[checkID])
  {
    AccountResults(snapshot, CheckMap(snapshot.checks)[checkID])[accountID]
  }

  predicate Emits(previous: AttestedContent, current: AttestedContent, e: Event) {
    && Comparable(previous, current, e.checkID, e.accountID)
    && EmitsAt(e.checkID, CheckMap(current.checks)[e.checkID].title, e.accountID,
               ResultAt(previous, e.checkID, e.accountID), ResultAt(current, e.checkID, e.accountID), e)
  }

  // ---- the comparator ----

  lemma StringOrder(x: string, y: string, z: string)
    ensures !GoLess(x, x)
    ensures GoLess(x, y) ==> !GoLess(y, x) && x != y
    ensures x != y ==> GoLess(x, y) || GoLess(y, x)
    ensures GoLess(x, y) && GoLess(y, z) ==> GoLess(x, z)
  {
    GoLessTotal({x, y, z});
  }

  lemma Asymmetric(a: Event, b: Event)
    requires EventLess(a, b)
    ensures !EventLess(b, a)
  {
    StringOrder(a.checkID, b.checkID, a.checkID);
    StringOrder(a.accountID, b.accountID, a.accountID);
    StringOrder(KindName(a.kind), KindName(b.kind), KindName(a.kind));
    StringOrder(a.finding, b.finding, a.finding);
  }

  predicate FindingLess(a: Event, b: Event) {
    if a.kind != b.kind then GoLess(KindName(a.kind), KindName(b.kind)) else GoLess(a.finding, b.finding)
  }

  lemma FindingNegativelyTransitive(a: Event, b: Event, c: Event)
    requires !FindingLess(a, b) && !FindingLess(b, c)
    ensures !FindingLess(a, c)
  {
    StringOrder(KindName(a.kind), KindName(b.kind), KindName(c.kind));
    StringOrder(KindName(c.kind), KindName(b.kind), KindName(a.kind));
    StringOrder(KindName(b.kind), KindName(a.kind), KindName(c.kind));
    StringOrder(KindName(a.kind), KindName(c.kind), KindName(b.kind));
    StringOrder(a.finding, b.finding, c.finding);
    StringOrder(c.finding, b.finding, a.finding);
    StringOrder(b.finding, c.finding, b.finding);
    StringOrder(a.finding, c.finding, a.finding);
    KindNamesDistinct();
  }

  lemma KindNamesDistinct()
    ensures forall k, l: EventKind :: KindName(k) == KindName(l) ==> k == l
  {
  }

  lemma NegativelyTransitive(a: Event, b: Event, c: Event)
    requires !EventLess(a, b) && !EventLess(b, c)
    ensures !EventLess(a, c)
  {
    StringOrder(c.checkID, b.checkID, a.checkID);
    StringOrder(b.checkID, a.checkID, b.checkID);
    StringOrder(a.checkID, c.checkID, a.checkID);
    StringOrder(c.accountID, b.accountID, a.accountID);
    StringOrder(b.accountID, a.accountID, b.accountID);
    StringOrder(a.accountID, c.accountID, a.accountID);
    if !FindingLess(a, b) && !FindingLess(b, c) { FindingNegativelyTransitive(a, b, c); }
  }

  lemma EventWeakOrder()
    ensures WeakOrder(EventLess)
  {
    forall a, b | EventLess(a, b) ensures !EventLess(b, a) { Asymmetric(a, b); }
    forall a, b, c | !EventLess(a, b) && !EventLess(b, c) ensures !EventLess(a, c) { NegativelyTransitive(a, b, c); }
  }

  /** On the events one call can emit the comparator leaves no two events tied. */
  lemma EventsTotallyOrdered(previous: AttestedContent, current: AttestedContent, es: set<Event>)
    requires forall e | e in es :: Emits(previous, current, e)
    ensures TotalOn(EventLess, es)
  {
    EventWeakOrder();
    forall a | a in es ensures !EventLess(a, a) {
      assert EventLess(a, a) ==> !EventLess(a, a);
    }
    forall a, b | a in es && b in es && a != b ensures EventLess(a, b) || EventLess(b, a) {
      StringOrder(a.checkID, b.checkID, a.checkID);
      StringOrder(a.accountID, b.accountID, a.accountID);
      StringOrder(KindName(a.kind), KindName(b.kind), KindName(a.kind));
      StringOrder(a.finding, b.finding, a.finding);
      KindNamesDistinct();
    }
    forall a, b, c | a in es && b in es && c in es && EventLess(a, b) && EventLess(b, c) ensures EventLess(a, c) {
      Transitive(a, b, c);
    }
  }

  lemma Transitive(a: Event, b: Event, c: Event)
    requires EventLess(a, b) && EventLess(b, c)
    ensures EventLess(a, c)
  {
    EventWeakOrder();
    assert !EventLess(c, b);
    if !EventLess(a, c) { NegativelyTransitive(a, c, b); }
  }

  // ---- the code ----

  method SetDifference(left: seq<string>, right: seq<string>) returns (r: seq<string>)
    ensures r == GoSorted(Elems(left) - Elems(right))
  {
    var rightSet: set<string> := {};
    for i := 0 to |right|
      invariant rightSet == Elems(right[..i])
    {
      assert right[..i + 1] == right[..i] + [right[i]];
      SnocElems(right[..i], right[i]);
      rightSet := rightSet + {right[i]};
    }
    assert right[..|right|] == right;
    var seen: set<string> := {};
    var out: seq<string> := [];
    for i := 0 to |left|
      invariant seen == Elems(left[..i])
      invariant NoDuplicates(out) && Elems(out) == seen - rightSet
    {
      var value := left[i];
      assert left[..i + 1] == left[..i] + [value];
      SnocElems(left[..i], value);
      if value !in seen {
        seen := seen + {value};
        if value !in rightSet {
          assert value !in Elems(out);
          SnocElems(out, value);
          out := out + [value];
        }
      }
    }
    assert left[..|left|] == left;
    r := SortStrings(out);
  }

  ghost predicate ExactlyAt(es: seq<Event>, checkID: string, title: string, accountID: string, p: CheckResult, c: CheckResult) {
    forall e :: e in es <==> EmitsAt(checkID, title, accountID, p, c, e)
  }

  predicate IsFinding(kind: EventKind, checkID: string, title: string, accountID: string, e: Event) {
    e == Event(kind, checkID, title, accountID, "", "", e.finding)
  }

  method AppendFindings(es: seq<Event>, kind: EventKind, checkID: string, title: string, accountID: string, findings: seq<string>)
    returns (r: seq<Event>)
    requires NoDuplicates(es) && NoDuplicates(findings) && forall e | e in es :: e.kind != kind
    ensures NoDuplicates(r)
    ensures forall e :: e in r <==> e in es || (IsFinding(kind, checkID, title, accountID, e) && e.finding in findings)
  {
    r := es;
    for i := 0 to |findings|
      invariant NoDuplicates(r)
      invariant forall e :: e in r <==> e in es || (IsFinding(kind, checkID, title, accountID, e) && e.finding in findings[..i])
    {
      assert findings[..i + 1] == findings[..i] + [findings[i]];
      r := r + [Event(kind, checkID, title, accountID, "", "", findings[i])];
    }
    assert findings[..|findings|] == findings;
  }

  /** The events of one check in one account. */
  method AccountEvents(checkID: string, title: string, accountID: string, p: CheckResult, c: CheckResult)
    returns (es: seq<Event>)
    ensures NoDuplicates(es) && ExactlyAt(es, checkID, title, accountID, p, c)
  {
    es := [];
    if p.status != c.status {
      es := [Event(StatusChanged, checkID, title, accountID, p.status, c.status, "")];
    }
    ghost var status := es;
    var added := SetDifference(Items(c.findings), Items(p.findings));
    GoLessTotal(Elems(added));
    AscendingNoDuplicates(GoLess, added);
    es := AppendFindings(es, NewFinding, checkID, title, accountID, added);
    var resolved := SetDifference(Items(p.findings), Items(c.findings));
    GoLessTotal(Elems(resolved));
    AscendingNoDuplicates(GoLess, resolved);
    es := AppendFindings(es, ResolvedFinding, checkID, title, accountID, resolved);
    forall e ensures e in es <==> EmitsAt(checkID, title, accountID, p, c, e) {
      assert e.finding in added <==> e.finding in Elems(added);
      assert e.finding in resolved <==> e.finding in Elems(resolved);
      assert e in status <==> e.kind.StatusChanged? && EmitsAt(checkID, title, accountID, p, c, e);
    }
  }

  lemma NoDuplicatesAppend<T(!new)>(a: seq<T>, b: seq<T>)
    requires NoDuplicates(a) && NoDuplicates(b) && forall x | x in a :: x !in b
    ensures NoDuplicates(a + b)
  {
    var r := a + b;
    forall i, j | 0 <= i < j < |r| ensures r[i] != r[j] {
      assert i < |a| ==> r[i] == a[i] && r[i] in a;
      assert i >= |a| ==> r[i] == b[i - |a|];
      assert j < |a| ==> r[j] == a[j];
      assert j >= |a| ==> r[j] == b[j - |a|] && r[j] in b;
    }
  }

  /** The report of changes: every event there is, once, in the comparator's order. */
  ghost predicate IsReport(events: seq<Event>, previous: AttestedContent, current: AttestedContent) {
    && (forall e :: e in events <==> Emits(previous, current, e))
    && Ascending(EventLess, events)
  }

  /** Both maps are ranged over in an unspecified order and the sort need not be stable. */
  method Reports(previous: AttestedContent, current: AttestedContent) returns (events: seq<Event>)
    ensures IsReport(events, previous, current)
  {
    events := [];
    var checksTodo := CheckMap(current.checks).Keys;
    while checksTodo != {}
      invariant checksTodo <= CheckMap(current.checks).Keys && NoDuplicates(events)
      invariant forall e :: e in events <==> e.checkID !in checksTodo && Emits(previous, current, e)
    {
      var checkID :| checkID in checksTodo;
      ghost var before := events;
      if checkID in CheckMap(previous.checks) {
        var es := CheckEvents(previous, current, checkID);
        NoDuplicatesAppend(events, es);
        events := events + es;
      }
      checksTodo := checksTodo - {checkID};
    }
    assert forall e | Emits(previous, current, e) :: e.checkID in CheckMap(current.checks);
    EventWeakOrder();
    EventsTotallyOrdered(previous, current, Elems(events));
    ghost var was := events;
    events := Sort(EventLess, events);
    SortedPermutationIsArrange(EventLess, was, events);
    forall e ensures e in events <==> e in was {
      assert e in Elems(events) <==> e in Elems(was);
    }
  }

  method CheckEvents(previous: AttestedContent, current: AttestedContent, checkID: string) returns (es: seq<Event>)
    requires checkID in CheckMap(previous.checks) && checkID in CheckMap(current.checks)
    ensures NoDuplicates(es) && forall e :: e in es <==> e.checkID == checkID && Emits(previous, current, e)
  {
    es := [];
    var currentCheck := CheckMap(current.checks)[checkID];
    var previousAccounts := AccountResults(previous, CheckMap(previous.checks)[checkID]);
    var currentAccounts := AccountResults(current, currentCheck);
    var todo := currentAccounts.Keys;
    while todo != {}
      invariant todo <= currentAccounts.Keys && NoDuplicates(es)
      invariant forall e :: e in es <==> e.checkID == checkID && e.accountID !in todo && Emits(previous, current, e)
    {
      var accountID :| accountID in todo;
      if accountID in previousAccounts {
        var more := AccountEvents(checkID, currentCheck.title, accountID, previousAccounts[accountID], currentAccounts[accountID]);
        NoDuplicatesAppend(es, more);
        es := es + more;
      }
      todo := todo - {accountID};
    }
  }

  /** DETERMINISTIC: the map orders and the sorting algorithm do not show; regressions, neutral
      changes and improvements come in three contiguous groups. */
  lemma ReportsDeterministic(a: seq<Event>, b: seq<Event>, previous: AttestedContent, current: AttestedContent)
    requires IsReport(a, previous, current) && IsReport(b, previous, current)
    ensures a == b
    ensures forall i, j | 0 <= i < j < |a| :: Severity(a[i]) <= Severity(a[j])
  {
    assert Elems(a) == Elems(b);
    EventsTotallyOrdered(previous, current, Elems(a));
    AscendingUnique(EventLess, a, b);
    forall i, j | 0 <= i < j < |a| ensures Severity(a[i]) <= Severity(a[j]) {
      assert EventLess(a[i], a[j]);
    }
  }

  // ---- in which order ----

  predicate Bad(status: string) { status == "fail" || status == "error" }

  /** Something got worse: a finding is new, or a status became fail or error. */
  predicate Regression(e: Event) { e.kind.NewFinding? || (e.kind.StatusChanged? && Bad(e.currentStatus)) }

  /** Something got better: a finding is gone, or a status was fail or error and is neither now. */
  predicate Improvement(e: Event) {
    e.kind.ResolvedFinding? || (e.kind.StatusChanged? && Bad(e.previousStatus) && !Bad(e.currentStatus))
  }

  lemma SeverityMeans(e: Event)
    ensures Severity(e) == if Regression(e) then 0 else if Improvement(e) then 2 else 1
    ensures !(Regression(e) && Improvement(e))
  {
  }

  /** Nothing stands before a regression but regressions, and nothing after an improvement but improvements. */
  predicate Ranked(d: Event, e: Event) { (Regression(e) ==> Regression(d)) && (Improvement(d) ==> Improvement(e)) }

  predicate SameRank(d: Event, e: Event) { (Regression(d) <==> Regression(e)) && (Improvement(d) <==> Improvement(e)) }

  predicate SamePlace(d: Event, e: Event) { d.checkID == e.checkID && d.accountID == e.accountID }

  /** Events of one rank come by check, then by account, in byte order, findings in byte order before the status. */
  predicate InOrder(d: Event, e: Event) {
    && Ranked(d, e)
    && (SameRank(d, e) ==> d.checkID == e.checkID || GoLess(d.checkID, e.checkID))
    && (SameRank(d, e) && d.checkID == e.checkID ==> d.accountID == e.accountID || GoLess(d.accountID, e.accountID))
    && (SameRank(d, e) && SamePlace(d, e) && d.kind == e.kind ==> GoLess(d.finding, e.finding))
    && (SameRank(d, e) && SamePlace(d, e) && d.kind != e.kind ==> e.kind.StatusChanged?)
  }

  lemma FindingsBeforeStatus(d: Event, e: Event)
    requires SameRank(d, e) && d.kind != e.kind && GoLess(KindName(d.kind), KindName(e.kind))
    ensures e.kind.StatusChanged?
  {
    var m, n, r := Points("status_changed"), Points("new_finding"), Points("resolved_finding");
    assert m[0] != n[0] && m[0] != r[0] && !LexLess(m, n) && !LexLess(m, r);
  }

  /** REGRESSIONS FIRST, then neutral changes, then improvements. */
  lemma ReportOrder(events: seq<Event>, previous: AttestedContent, current: AttestedContent)
    requires IsReport(events, previous, current)
    ensures forall i, j | 0 <= i < j < |events| :: InOrder(events[i], events[j])
  {
    forall i, j | 0 <= i < j < |events| ensures InOrder(events[i], events[j]) {
      assert EventLess(events[i], events[j]);
      SeverityMeans(events[i]);
      SeverityMeans(events[j]);
      if SameRank(events[i], events[j]) && SamePlace(events[i], events[j]) && events[i].kind != events[j].kind {
        FindingsBeforeStatus(events[i], events[j]);
      }
    }
  }

  // ---- replaying ----

  datatype Snapshot = Snapshot(status: string, findings: set<string>)

  function Apply(s: Snapshot, e: Event): Snapshot {
    match e.kind
    case StatusChanged => s.(status := e.currentStatus)
    case NewFinding => s.(findings := s.findings + {e.finding})
    case ResolvedFinding => s.(findings := s.findings - {e.finding})
  }

  predicate About(e: Event, checkID: string, accountID: string) {
    e.checkID == checkID && e.accountID == accountID
  }

  /** Applies the events about one check and account, in order. */
  function Replay(s: Snapshot, es: seq<Event>, checkID: string, accountID: string): Snapshot {
    if es == [] then s
    else
      var n := |es| - 1;
      var r := Replay(s, es[..n], checkID, accountID);
      if About(es[n], checkID, accountID) then Apply(r, es[n]) else r
  }

  function Findings(es: seq<Event>, kind: EventKind, checkID: string, accountID: string): set<string> {
    set e | e in es && e.kind == kind && About(e, checkID, accountID) :: e.finding
  }

  function SnapshotOf(r: CheckResult): Snapshot {
    Snapshot(r.status, Elems(Items(r.findings)))
  }

  lemma FindingsSnoc(es: seq<Event>, e: Event, kind: EventKind, k: string, a: string)
    ensures Findings(es + [e], kind, k, a) == Findings(es, kind, k, a) + (if e.kind == kind && About(e, k, a) then {e.finding} else {})
  {
    assert forall x :: x in es + [e] <==> x in es || x == e;
  }

  lemma {:induction false} ReplayFindings(s: Snapshot, es: seq<Event>, k: string, a: string)
    requires Findings(es, NewFinding, k, a) !! Findings(es, ResolvedFinding, k, a)
    ensures Replay(s, es, k, a).findings == s.findings - Findings(es, ResolvedFinding, k, a) + Findings(es, NewFinding, k, a)
  {
    if es != [] {
      var n := |es| - 1;
      assert es == es[..n] + [es[n]];
      FindingsSnoc(es[..n], es[n], NewFinding, k, a);
      FindingsSnoc(es[..n], es[n], ResolvedFinding, k, a);
      ReplayFindings(s, es[..n], k, a);
    }
  }

  predicate StatusEvent(e: Event, k: string, a: string) { e.kind.StatusChanged? && About(e, k, a) }

  lemma {:induction false} ReplayStatus(s: Snapshot, es: seq<Event>, k: string, a: string)
    ensures (forall e | e in es :: !StatusEvent(e, k, a)) ==> Replay(s, es, k, a).status == s.status
    ensures (exists e | e in es :: StatusEvent(e, k, a)) ==>
      exists e | e in es :: StatusEvent(e, k, a) && Replay(s, es, k, a).status == e.currentStatus
  {
    if es != [] {
      var n := |es| - 1;
      var last := es[n];
      assert es == es[..n] + [last];
      assert forall e :: e in es <==> e in es[..n] || e == last;
      ReplayStatus(s, es[..n], k, a);
      if StatusEvent(last, k, a) {
        assert last in es && Replay(s, es, k, a).status == last.currentStatus;
      } else {
        assert Replay(s, es, k, a).status == Replay(s, es[..n], k, a).status;
      }
    }
  }

  /** EXACT: replaying the report on the previous status and finding set gives the current ones. */
  lemma ReplayGivesCurrent(events: seq<Event>, previous: AttestedContent, current: AttestedContent, k: string, a: string)
    requires IsReport(events, previous, current) && Comparable(previous, current, k, a)
    ensures Replay(SnapshotOf(ResultAt(previous, k, a)), events, k, a) == SnapshotOf(ResultAt(current, k, a))
  {
    var p, c := ResultAt(previous, k, a), ResultAt(current, k, a);
    var title := CheckMap(current.checks)[k].title;
    forall f ensures f in Findings(events, NewFinding, k, a) <==> f in Items(c.findings) && f !in Items(p.findings) {
      var e := Event(NewFinding, k, title, a, "", "", f);
      assert Emits(previous, current, e) <==> f in Items(c.findings) && f !in Items(p.findings);
    }
    forall f ensures f in Findings(events, ResolvedFinding, k, a) <==> f in Items(p.findings) && f !in Items(c.findings) {
      var e := Event(ResolvedFinding, k, title, a, "", "", f);
      assert Emits(previous, current, e) <==> f in Items(p.findings) && f !in Items(c.findings);
    }
    ReplayFindings(SnapshotOf(p), events, k, a);
    ReplayStatus(SnapshotOf(p), events, k, a);
    if p.status != c.status {
      var e := Event(StatusChanged, k, title, a, p.status, c.status, "");
      assert Emits(previous, current, e) && StatusEvent(e, k, a);
    }
  }

  /** NOTHING REDUNDANT: leaving out any one event makes the replay miss the current snapshot. */
  lemma NoEventRedundant(events: seq<Event>, previous: AttestedContent, current: AttestedContent, i: nat)
    requires IsReport(events, previous, current) && i < |events|
    ensures
      var e := events[i];
      && Comparable(previous, current, e.checkID, e.accountID)
      && Replay(SnapshotOf(ResultAt(previous, e.checkID, e.accountID)), events[..i] + events[i + 1..], e.checkID, e.accountID)
         != SnapshotOf(ResultAt(current, e.checkID, e.accountID))
  {
    var e := events[i];
    var k, a := e.checkID, e.accountID;
    assert Emits(previous, current, e);
    var p, c := ResultAt(previous, k, a), ResultAt(current, k, a);
    var rest := events[..i] + events[i + 1..];
    forall x | x in rest ensures x in events && x != e {
      var j :| 0 <= j < |rest| && rest[j] == x;
      var j' := if j < i then j else j + 1;
      assert events[j'] == x;
      EventsTotallyOrdered(previous, current, Elems(events));
      AscendingNoDuplicates(EventLess, events);
    }
    forall f | f in Findings(rest, NewFinding, k, a)
      ensures f in Items(c.findings) && f !in Items(p.findings) && (e.kind.NewFinding? ==> f != e.finding)
    {
      var x :| x in rest && x.kind == NewFinding && About(x, k, a) && x.finding == f;
      assert Emits(previous, current, x);
    }
    forall f | f in Findings(rest, ResolvedFinding, k, a)
      ensures f in Items(p.findings) && f !in Items(c.findings) && (e.kind.ResolvedFinding? ==> f != e.finding)
    {
      var x :| x in rest && x.kind == ResolvedFinding && About(x, k, a) && x.finding == f;
      assert Emits(previous, current, x);
    }
    ReplayFindings(SnapshotOf(p), rest, k, a);
    ReplayStatus(SnapshotOf(p), rest, k, a);
    var r := Replay(SnapshotOf(p), rest, k, a);
    match e.kind {
      case StatusChanged =>
        forall x | x in rest ensures !StatusEvent(x, k, a) {
          assert Emits(previous, current, x);
        }
        assert r.status == p.status;
      case NewFinding =>
        assert e.finding !in r.findings;
        assert e.finding in SnapshotOf(c).findings;
      case ResolvedFinding =>
        assert e.finding in r.findings;
        assert e.finding !in SnapshotOf(c).findings;
    }
  }

  function Reverse(e: Event, title: string): Event {
    Event(match e.kind case StatusChanged => StatusChanged case NewFinding => ResolvedFinding case ResolvedFinding => NewFinding,
          e.checkID, title, e.accountID, e.currentStatus, e.previousStatus, e.finding)
  }

  /** SYMMETRIC: swapping the snapshots turns new into resolved and swaps the statuses; only the
      title follows the newer snapshot. */
  lemma SwapReverses(previous: AttestedContent, current: AttestedContent, e: Event)
    requires e.checkID in CheckMap(previous.checks) && e.checkID in CheckMap(current.checks)
    requires e.checkTitle == CheckMap(current.checks)[e.checkID].title
    ensures Emits(previous, current, e) <==> Emits(current, previous, Reverse(e, CheckMap(previous.checks)[e.checkID].title))
    ensures Reverse(Reverse(e, CheckMap(previous.checks)[e.checkID].title), e.checkTitle) == e
  {
  }

  /** The events backwards, with the titles of a snapshot. */
  function Reversed(es: seq<Event>, titles: AttestedContent): set<Event> {
    set e | e in es && e.checkID in CheckMap(titles.checks) :: Reverse(e, CheckMap(titles.checks)[e.checkID].title)
  }

  /** For the whole reports: the report from current back to previous holds the reverses of the other's
      events, and nothing else; there are as many. */
  lemma SwapReversesReports(a: seq<Event>, b: seq<Event>, previous: AttestedContent, current: AttestedContent)
    requires IsReport(a, previous, current) && IsReport(b, current, previous)
    ensures Elems(b) == Reversed(a, previous) && Elems(a) == Reversed(b, current) && |a| == |b|
  {
    ReversedReport(a, b, previous, current);
    ReversedReport(b, a, current, previous);
    ReversedSize(a, previous);
    ReversedSize(b, current);
    ReportSize(a, previous, current);
    ReportSize(b, current, previous);
  }

  lemma ReversedReport(a: seq<Event>, b: seq<Event>, previous: AttestedContent, current: AttestedContent)
    requires IsReport(a, previous, current) && IsReport(b, current, previous)
    ensures Elems(b) == Reversed(a, previous)
  {
    forall f ensures f in Elems(b) <==> f in Reversed(a, previous) {
      if f in b {
        var e := Reverse(f, CheckMap(current.checks)[f.checkID].title);
        SwapReverses(current, previous, f);
        assert e in a && Reverse(e, CheckMap(previous.checks)[e.checkID].title) == f;
      }
      if f in Reversed(a, previous) {
        var e :| e in a && e.checkID in CheckMap(previous.checks) && f == Reverse(e, CheckMap(previous.checks)[e.checkID].title);
        SwapReverses(previous, current, e);
      }
    }
  }

  lemma {:induction false} ReversedSize(es: seq<Event>, titles: AttestedContent)
    ensures |Reversed(es, titles)| <= |es|
  {
    if es != [] {
      var n := |es| - 1;
      var e := es[n];
      ReversedSize(es[..n], titles);
      assert es == es[..n] + [e];
      if e.checkID in CheckMap(titles.checks) {
        assert Reversed(es, titles) == Reversed(es[..n], titles) + {Reverse(e, CheckMap(titles.checks)[e.checkID].title)};
      } else {
        assert Reversed(es, titles) == Reversed(es[..n], titles);
      }
    }
  }

  lemma ReportSize(a: seq<Event>, previous: AttestedContent, current: AttestedContent)
    requires IsReport(a, previous, current)
    ensures |Elems(a)| == |a|
  {
    EventsTotallyOrdered(previous, current, Elems(a));
    AscendingNoDuplicates(EventLess, a);
    ElemsSize(a);
  }

  lemma {:induction false} ElemsSize<T(!new)>(s: seq<T>)
    requires NoDuplicates(s)
    ensures |Elems(s)| == |s|
  {
    if s != [] {
      var n := |s| - 1;
      ElemsSize(s[..n]);
      SnocElems(s[..n], s[n]);
      assert s == s[..n] + [s[n]];
      assert s[n] !in Elems(s[..n]);
    }
  }
}
